/** The layered insertion of one table: rows enter in batches, each row only after every
    row of the same table that it refers to. */
module Layering {
  import opened Common

  /** A JSON cell of a bundle row. */
  datatype Cell =
    | Null
    | Text(text: string)
    | Number(n: int)
    | Flag(b: bool)
    | Document(entries: map<string, string>)

  type Row = map<string, Cell>

  const ID := "id"

  /** Rows of one table as the validator leaves them: identified, unambiguous, and every
      self-reference resolved inside the table. */
  ghost predicate Tabular(rows: seq<Row>, keys: set<string>) {
    && (forall r | r in rows :: ID in r && keys <= r.Keys)
    && (forall i, j | 0 <= i < j < |rows| :: rows[i][ID] != rows[j][ID])
    && (forall r, k {:trigger Resolves(rows, r, k)} | r in rows && k in keys :: Resolves(rows, r, k))
  }

  ghost predicate Resolves(rows: seq<Row>, r: Row, k: string) {
    k in r && (r[k] != Null ==> HasId(rows, r[k]))
  }

  ghost predicate HasId(rows: seq<Row>, id: Cell) {
    exists r :: r in rows && ID in r && r[ID] == id
  }

  /** Row `child` refers to row `parent` through one of the self keys. */
  ghost predicate Edge(rows: seq<Row>, keys: set<string>, child: Cell, parent: Cell) {
    parent != Null && exists r, k :: r in rows && k in keys && ID in r && k in r && r[ID] == child && r[k] == parent
  }

  /** `path` follows references from its first id to its last. */
  ghost predicate Walk(rows: seq<Row>, keys: set<string>, path: seq<Cell>) {
    forall i | 0 <= i < |path| - 1 :: Edge(rows, keys, path[i], path[i + 1])
  }

  ghost predicate Cycle(rows: seq<Row>, keys: set<string>, path: seq<Cell>) {
    |path| >= 2 && path[0] == path[|path| - 1] && Walk(rows, keys, path)
  }

  ghost predicate Cyclic(rows: seq<Row>, keys: set<string>) {
    exists path :: Cycle(rows, keys, path)
  }

  predicate IsReady(row: Row, keys: set<string>, inserted: set<Cell>)
  {
    forall k | k in keys :: k in row && (row[k] == Null || row[k] in inserted)
  }

  function Keep(rows: seq<Row>, p: Row -> bool): (kept: seq<Row>)
    ensures |kept| <= |rows|
    ensures forall r :: r in kept <==> r in rows && p(r)
    ensures (exists r :: r in rows && !p(r)) ==> |kept| < |rows|
  {
    if rows == [] then [] else (if p(rows[0]) then [rows[0]] else []) + Keep(rows[1..], p)
  }

  /** Filtering by a predicate and by its negation splits the rows without loss. */
  lemma {:induction false} KeepSplits(rows: seq<Row>, p: Row -> bool, q: Row -> bool)
    requires forall r | r in rows :: p(r) != q(r)
    ensures multiset(Keep(rows, p)) + multiset(Keep(rows, q)) == multiset(rows)
  {
    if rows != [] {
      assert rows == [rows[0]] + rows[1..];
      KeepSplits(rows[1..], p, q);
    }
  }

  function Ids(rows: seq<Row>): (ids: set<Cell>)
    ensures forall r | r in rows && ID in r :: r[ID] in ids
  {
    set r | r in rows && ID in r :: r[ID]
  }

  function Flatten(layers: seq<seq<Row>>): seq<Row> {
    if layers == [] then [] else Flatten(layers[..|layers| - 1]) + layers[|layers| - 1]
  }

  /** Every reference made in layer `i` is met by an earlier layer. */
  ghost predicate Layered(layers: seq<seq<Row>>, keys: set<string>) {
    forall i, r, k {:trigger Met(layers, i, r, k)} | 0 <= i < |layers| && r in layers[i] && k in keys ::
      Met(layers, i, r, k)
  }

  ghost predicate Met(layers: seq<seq<Row>>, i: nat, r: Row, k: string)
    requires i <= |layers|
  {
    ID in r && k in r && (r[k] == Null || Placed(layers[..i], r[k]))
  }

  ghost predicate Placed(layers: seq<seq<Row>>, id: Cell) {
    exists j :: 0 <= j < |layers| && HasId(layers[j], id)
  }

  /** What holds between two rounds of the insertion loop. */
  ghost predicate Progress(rows: seq<Row>, keys: set<string>, layers: seq<seq<Row>>, pending: seq<Row>,
                           inserted: set<Cell>)
    requires Tabular(rows, keys)
  {
    && (forall r :: r in pending <==> r in rows && r[ID] !in inserted)
    && multiset(Flatten(layers)) + multiset(pending) == multiset(rows)
    && Layered(layers, keys)
    && (forall j | 0 <= j < |layers| :: |layers[j]| > 0)
    && (forall id {:trigger Placed(layers, id)} | id in inserted :: Placed(layers, id))
    && (forall j, r | 0 <= j < |layers| && r in layers[j] :: r in rows)
  }

  /** The insertion loop. It never runs past its rows, inserts each exactly once behind its
      parents, and gives up exactly on a cyclic reference graph. */
  method InsertLayers(rows: seq<Row>, keys: set<string>) returns (layers: seq<seq<Row>>, stuck: bool)
    requires Tabular(rows, keys)
    ensures stuck <==> Cyclic(rows, keys)
    ensures Layered(layers, keys)
    ensures forall j | 0 <= j < |layers| :: |layers[j]| > 0
    ensures forall j, r | 0 <= j < |layers| && r in layers[j] :: r in rows
    ensures !stuck ==> multiset(Flatten(layers)) == multiset(rows)
    ensures |layers| <= |rows|
  {
    var pending := rows;
    var inserted: set<Cell> := {};
    layers, stuck := [], false;
    while pending != []
      invariant Progress(rows, keys, layers, pending, inserted) && |layers| + |pending| <= |rows|
      decreases |pending|
    {
      var ready := Keep(pending, (r: Row) => IsReady(r, keys, inserted));
      if ready == [] {
        StuckIsCyclic(rows, keys, pending, inserted);
        stuck := true;
        return;
      }
      var done := inserted + Ids(ready);
      var rest := Keep(pending, (r: Row) => ID !in r || r[ID] !in done);
      RoundProgresses(rows, keys, layers, pending, inserted, ready, rest);
      layers := layers + [ready];
      inserted := done;
      pending := rest;
    }
    FinishedIsAcyclic(rows, keys, layers, inserted);
  }

  /** One round keeps the loop's promises and leaves fewer rows. */
  lemma RoundProgresses(rows: seq<Row>, keys: set<string>, layers: seq<seq<Row>>, pending: seq<Row>,
                        inserted: set<Cell>, ready: seq<Row>, rest: seq<Row>)
    requires Tabular(rows, keys) && Progress(rows, keys, layers, pending, inserted)
    requires ready == Keep(pending, (r: Row) => IsReady(r, keys, inserted)) && ready != []
    requires rest == Keep(pending, (r: Row) => ID !in r || r[ID] !in inserted + Ids(ready))
    ensures Progress(rows, keys, layers + [ready], rest, inserted + Ids(ready))
    ensures |rest| < |pending|
  {
    RoundCounts(rows, layers, pending, inserted, (r: Row) => IsReady(r, keys, inserted), ready, rest);
    LayeredExtends(layers, ready, keys, inserted);
    PlacedExtends(layers, ready, inserted);
    LayersExtend(rows, layers, ready);
  }

  lemma LayersExtend(rows: seq<Row>, layers: seq<seq<Row>>, ready: seq<Row>)
    requires forall j | 0 <= j < |layers| :: |layers[j]| > 0
    requires forall j, r | 0 <= j < |layers| && r in layers[j] :: r in rows
    requires ready != [] && forall r | r in ready :: r in rows
    ensures forall j | 0 <= j < |layers + [ready]| :: |(layers + [ready])[j]| > 0
    ensures forall j, r | 0 <= j < |layers + [ready]| && r in (layers + [ready])[j] :: r in rows
  {
  }

  lemma RoundCounts(rows: seq<Row>, layers: seq<seq<Row>>, pending: seq<Row>, inserted: set<Cell>,
                    admits: Row -> bool, ready: seq<Row>, rest: seq<Row>)
    requires forall r | r in rows :: ID in r
    requires forall i, j | 0 <= i < j < |rows| :: rows[i][ID] != rows[j][ID]
    requires forall r :: r in pending <==> r in rows && r[ID] !in inserted
    requires multiset(Flatten(layers)) + multiset(pending) == multiset(rows)
    requires ready == Keep(pending, admits) && ready != []
    requires rest == Keep(pending, (r: Row) => ID !in r || r[ID] !in inserted + Ids(ready))
    ensures |rest| < |pending|
    ensures multiset(Flatten(layers + [ready])) + multiset(rest) == multiset(rows)
    ensures forall r :: r in rest <==> r in rows && r[ID] !in inserted + Ids(ready)
  {
    var next := layers + [ready];
    BatchSplits(rows, pending, admits, (r: Row) => ID !in r || r[ID] !in inserted + Ids(ready), inserted, Ids(ready));
    assert next[..|next| - 1] == layers;
  }

  lemma PlacedExtends(layers: seq<seq<Row>>, ready: seq<Row>, inserted: set<Cell>)
    requires forall id {:trigger Placed(layers, id)} | id in inserted :: Placed(layers, id)
    ensures forall id {:trigger Placed(layers + [ready], id)} | id in inserted + Ids(ready) ::
              Placed(layers + [ready], id)
  {
    var next := layers + [ready];
    forall id | id in inserted + Ids(ready)
      ensures Placed(next, id)
    {
      if id in Ids(ready) {
        assert HasId(next[|layers|], id);
      } else {
        assert Placed(layers, id);
        var j :| 0 <= j < |layers| && HasId(layers[j], id);
        assert HasId(next[j], id);
      }
    }
  }

  lemma FinishedIsAcyclic(rows: seq<Row>, keys: set<string>, layers: seq<seq<Row>>, inserted: set<Cell>)
    requires Tabular(rows, keys) && Progress(rows, keys, layers, [], inserted)
    ensures !Cyclic(rows, keys)
  {
    if Cyclic(rows, keys) {
      var path :| Cycle(rows, keys, path);
      assert Edge(rows, keys, path[0], path[1]);
      var r, k :| r in rows && k in keys && r[ID] == path[0] && r[k] == path[1];
      assert r !in [];
      assert Placed(layers, r[ID]);
      var j :| 0 <= j < |layers| && HasId(layers[j], path[0]);
      NoLoopBelow(rows, keys, layers, path, j);
    }
  }

  lemma SameRow(rows: seq<Row>, r: Row, s: Row)
    requires forall x | x in rows :: ID in x
    requires forall i, j | 0 <= i < j < |rows| :: rows[i][ID] != rows[j][ID]
    requires r in rows && s in rows && r[ID] == s[ID]
    ensures r == s
  {
  }

  /** Removing the batch by id removes exactly the rows that were ready. */
  lemma BatchSplits(rows: seq<Row>, pending: seq<Row>, admits: Row -> bool, waits: Row -> bool,
                    inserted: set<Cell>, batch: set<Cell>)
    requires forall r | r in rows :: ID in r
    requires forall i, j | 0 <= i < j < |rows| :: rows[i][ID] != rows[j][ID]
    requires forall r :: r in pending <==> r in rows && r[ID] !in inserted
    requires batch == Ids(Keep(pending, admits))
    requires forall r :: waits(r) <==> ID !in r || r[ID] !in inserted + batch
    ensures multiset(Keep(pending, admits)) + multiset(Keep(pending, waits)) == multiset(pending)
    ensures Keep(pending, admits) != [] ==> |Keep(pending, waits)| < |pending|
  {
    forall r | r in pending
      ensures admits(r) != waits(r)
    {
      if r[ID] in batch {
        var s :| s in Keep(pending, admits) && ID in s && s[ID] == r[ID];
        SameRow(rows, r, s);
      }
    }
    KeepSplits(pending, admits, waits);
    if Keep(pending, admits) != [] {
      assert Keep(pending, admits)[0] in pending;
    }
  }

  lemma LayeredExtends(layers: seq<seq<Row>>, ready: seq<Row>, keys: set<string>, inserted: set<Cell>)
    requires Layered(layers, keys)
    requires forall r | r in ready :: ID in r && IsReady(r, keys, inserted)
    requires forall id {:trigger Placed(layers, id)} | id in inserted :: Placed(layers, id)
    ensures Layered(layers + [ready], keys)
  {
    var next := layers + [ready];
    forall i, r, k | 0 <= i < |next| && r in next[i] && k in keys
      ensures Met(next, i, r, k)
    {
      assert next[..i] == layers[..i];
      assert i < |layers| ==> Met(layers, i, r, k);
      if i == |layers| {
        assert layers[..i] == layers;
      }
    }
  }

  /** When no pending row is ready, following unmet references must loop. */
  lemma StuckIsCyclic(rows: seq<Row>, keys: set<string>, pending: seq<Row>, inserted: set<Cell>)
    requires Tabular(rows, keys)
    requires pending != []
    requires forall r :: r in pending <==> r in rows && r[ID] !in inserted
    requires forall r | r in pending :: !IsReady(r, keys, inserted)
    ensures Cyclic(rows, keys)
  {
    var nodes := Ids(pending);
    forall a | a in nodes
      ensures Continues(rows, keys, nodes, a)
    {
      var _ := UnmetParent(rows, keys, pending, inserted, a);
    }
    assert pending[0] in pending && pending[0][ID] in nodes;
    EndlessIsCyclic(rows, keys, nodes, pending[0][ID]);
  }

  /** Some reference from `a` stays within `nodes`. */
  ghost predicate Continues(rows: seq<Row>, keys: set<string>, nodes: set<Cell>, a: Cell) {
    exists b :: b in nodes && Edge(rows, keys, a, b)
  }

  ghost function Successor(rows: seq<Row>, keys: set<string>, nodes: set<Cell>, a: Cell): (b: Cell)
    requires Continues(rows, keys, nodes, a)
    ensures b in nodes && Edge(rows, keys, a, b)
  {
    var b :| b in nodes && Edge(rows, keys, a, b); b
  }

  lemma EndlessIsCyclic(rows: seq<Row>, keys: set<string>, nodes: set<Cell>, start: Cell)
    requires start in nodes
    requires forall a {:trigger Continues(rows, keys, nodes, a)} | a in nodes :: Continues(rows, keys, nodes, a)
    ensures Cyclic(rows, keys)
  {
    var succ := map a | a in nodes :: Successor(rows, keys, nodes, a);
    SuccessorsLoop(rows, keys, succ, start);
  }

  lemma SuccessorsLoop(rows: seq<Row>, keys: set<string>, succ: map<Cell, Cell>, start: Cell)
    requires start in succ && succ.Values <= succ.Keys
    requires forall a | a in succ :: Edge(rows, keys, a, succ[a])
    ensures Cyclic(rows, keys)
  {
    var path := Iterate(succ, start, |succ|);
    var i, j := Pigeonhole(path, succ.Keys);
    var loop := path[i..j + 1];
    forall m | 0 <= m < |loop| - 1
      ensures Edge(rows, keys, loop[m], loop[m + 1])
    {
      assert path[i + m] in path && path[i + m + 1] == succ[path[i + m]];
    }
    assert Cycle(rows, keys, loop);
  }

  /** A row that is not ready refers to a row that is still pending. */
  lemma UnmetParent(rows: seq<Row>, keys: set<string>, pending: seq<Row>, inserted: set<Cell>, a: Cell)
    returns (b: Cell)
    requires Tabular(rows, keys)
    requires forall r :: r in pending <==> r in rows && r[ID] !in inserted
    requires forall r | r in pending :: !IsReady(r, keys, inserted)
    requires a in Ids(pending)
    ensures b in Ids(pending) && Edge(rows, keys, a, b)
  {
    var r :| r in pending && ID in r && r[ID] == a;
    var k :| k in keys && r[k] != Null && r[k] !in inserted;
    b := r[k];
    assert Resolves(rows, r, k);
    var p :| p in rows && ID in p && p[ID] == b;
    assert p in pending;
  }

  /** The first `n + 1` nodes met by following a successor map. */
  lemma {:induction false} Iterate(succ: map<Cell, Cell>, start: Cell, n: nat) returns (path: seq<Cell>)
    requires start in succ && succ.Values <= succ.Keys
    ensures |path| == n + 1 && path[0] == start
    ensures forall x | x in path :: x in succ.Keys
    ensures forall i | 0 <= i < n :: path[i + 1] == succ[path[i]]
    decreases n
  {
    if n == 0 {
      path := [start];
    } else {
      assert succ[start] in succ.Values;
      var rest := Iterate(succ, succ[start], n - 1);
      path := [start] + rest;
    }
  }

  /** A loop would put its first id in ever lower layers. */
  lemma {:induction false} NoLoopBelow(rows: seq<Row>, keys: set<string>, layers: seq<seq<Row>>, path: seq<Cell>,
                                       j: nat)
    requires Tabular(rows, keys) && Layered(layers, keys)
    requires forall i, r | 0 <= i < |layers| && r in layers[i] :: r in rows
    requires Cycle(rows, keys, path)
    requires j < |layers| && HasId(layers[j], path[0])
    ensures false
  {
    Descends(rows, keys, layers, path, j);
    var i :| 0 <= i <= j && HasId(layers[i], path[|path| - 1]) && i <= j - (|path| - 1);
    NoLoopBelow(rows, keys, layers, path, i);
  }

  /** Walking `path` from layer `j` ends in a layer lower by at least the number of steps. */
  lemma {:induction false} Descends(rows: seq<Row>, keys: set<string>, layers: seq<seq<Row>>, path: seq<Cell>, j: nat)
    requires Tabular(rows, keys) && Layered(layers, keys)
    requires forall i, r | 0 <= i < |layers| && r in layers[i] :: r in rows
    requires |path| >= 1 && Walk(rows, keys, path)
    requires j < |layers| && HasId(layers[j], path[0])
    ensures exists i: int :: 0 <= i <= j && HasId(layers[i], path[|path| - 1]) && i <= j - (|path| - 1)
    decreases |path|
  {
    if |path| > 1 {
      assert Edge(rows, keys, path[0], path[1]);
      var r, k :| r in rows && k in keys && r[ID] == path[0] && r[k] == path[1];
      var s :| s in layers[j] && ID in s && s[ID] == path[0];
      SameRow(rows, r, s);
      assert Met(layers, j, r, k);
      var i :| 0 <= i < |layers[..j]| && HasId(layers[..j][i], path[1]);
      assert Walk(rows, keys, path[1..]) by {
        forall m | 0 <= m < |path[1..]| - 1
          ensures Edge(rows, keys, path[1..][m], path[1..][m + 1])
        {
          assert Edge(rows, keys, path[m + 1], path[m + 2]);
        }
      }
      Descends(rows, keys, layers, path[1..], i);
    }
  }
}
