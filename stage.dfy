/**
  A stage: the tile map it is built from, the objects spawned from its first layer, the three
  border barriers, the per-frame draw-order sort by vertical position, and the entity and enemy views.

  The stage's children are records: a creation number that stands for the object's identity,
  and the object's kind, position and size. The map arrives already parsed.

  Engine operations the model rests on (the engine is not part of this model):
  - AddChild appends a child at the end of the child list;
  - SetChildIndex(c, i) removes c from the child list (its first occurrence) and inserts it at index i;
  - GetChildren() returns a copy of the child list, not the list itself.
*/
module StageModel {
  import opened Options

  /** The objects a stage spawns. Player and the two zombie kinds are entities; only the zombies are enemies.
      The decorations are 24-frame animations drawn at scale 2.0 (CandyCane) and 1.25 (Lollipop). */
  datatype Kind = Background | Barrier | Player | CandyCane | Lollipop | PizzaZombie | TomatoZombie

  predicate IsEntity(k: Kind)
  {
    k == Player || k == PizzaZombie || k == TomatoZombie
  }

  predicate IsEnemy(k: Kind)
  {
    k == PizzaZombie || k == TomatoZombie
  }

  /** The sprite's own image size, or a size the stage sets. */
  datatype Size = ImageSize | Sized(width: int, height: int)

  datatype Body = Body(kind: Kind, x: int, y: int, size: Size)

  datatype Child = Child(id: nat, body: Body)

  /** One layer of the map: tiles[col][row] is the code of the cell in column col and row row. */
  datatype Layer = Layer(width: nat, height: nat, tiles: seq<seq<int>>)

  /** A parsed map; layers is None when the file has no layer element. */
  datatype TileMap = TileMap(tileWidth: int, tileHeight: int, width: int, height: int, layers: Option<seq<Layer>>)

  predicate HasLayer(m: TileMap)
  {
    m.layers.Some? && |m.layers.value| > 0
  }

  /** The parser gives a layer a tile array of exactly its width and height. */
  predicate WellFormed(layer: Layer)
  {
    |layer.tiles| == layer.width && forall c :: 0 <= c < |layer.tiles| ==> |layer.tiles[c]| == layer.height
  }

  function MainLayer(m: TileMap): Layer
    requires HasLayer(m)
  {
    m.layers.value[0]
  }

  // ---------------------------------------------------------------------------------------------
  // What loading produces

  /** What a single cell spawns, placed relative to the cell's pixel position (x, y). */
  function CellSpawn(code: int, x: int, y: int): seq<Body>
  {
    match code
    case 1 => [Body(Barrier, x, y, ImageSize)]
    case 2 => [Body(Player, x, y, ImageSize)]
    case 3 => [Body(CandyCane, x - 128, y - 128, ImageSize)]
    case 4 => [Body(Lollipop, x - 128, y - 32, ImageSize)]
    case 5 => [Body(PizzaZombie, x, y, ImageSize)]
    case 6 => [Body(TomatoZombie, x, y, ImageSize)]
    case _ => []
  }

  predicate Spawns(code: int)
  {
    1 <= code <= 6
  }

  /** The spawns of the first `rows` cells of column col, top to bottom. */
  function ColumnSpawns(layer: Layer, tileSize: int, col: nat, rows: nat): seq<Body>
    requires WellFormed(layer) && col < layer.width && rows <= layer.height
  {
    if rows == 0 then []
    else ColumnSpawns(layer, tileSize, col, rows - 1)
         + CellSpawn(layer.tiles[col][rows - 1], col * tileSize, (rows - 1) * tileSize)
  }

  /** The spawns of the first `cols` columns, column by column: column-major order. */
  function GridSpawns(layer: Layer, tileSize: int, cols: nat): seq<Body>
    requires WellFormed(layer) && cols <= layer.width
  {
    if cols == 0 then []
    else GridSpawns(layer, tileSize, cols - 1) + ColumnSpawns(layer, tileSize, cols - 1, layer.height)
  }

  const BackgroundBody: Body := Body(Background, 0, 0, ImageSize)

  /** Left wall, floor and right wall around a stage of the given pixel size. */
  function Borders(stageWidth: int, stageHeight: int): seq<Body>
  {
    [Body(Barrier, -64, 0, Sized(64, stageHeight)),
     Body(Barrier, 0, stageHeight, Sized(stageWidth, 64)),
     Body(Barrier, stageWidth, 0, Sized(64, stageHeight))]
  }

  /** Everything loading adds, in order: background, grid spawns, borders. */
  function LoadedBodies(m: TileMap): seq<Body>
    requires HasLayer(m) && WellFormed(MainLayer(m))
  {
    [BackgroundBody]
    + GridSpawns(MainLayer(m), m.tileWidth, MainLayer(m).width)
    + Borders(m.width * m.tileWidth, m.height * m.tileHeight)
  }

  /** The number of spawning codes among the first `rows` cells of a column. */
  function SpawningCells(column: seq<int>, rows: nat): nat
    requires rows <= |column|
  {
    if rows == 0 then 0 else SpawningCells(column, rows - 1) + (if Spawns(column[rows - 1]) then 1 else 0)
  }

  /** The number of spawning cells in the first `cols` columns. */
  function SpawningGridCells(layer: Layer, cols: nat): nat
    requires WellFormed(layer) && cols <= layer.width
  {
    if cols == 0 then 0 else SpawningGridCells(layer, cols - 1) + SpawningCells(layer.tiles[cols - 1], layer.height)
  }

  lemma CellSpawnTable(code: int, x: int, y: int)
    ensures |CellSpawn(code, x, y)| == (if Spawns(code) then 1 else 0)
    ensures code in {1, 2, 5, 6} ==> CellSpawn(code, x, y)[0].x == x && CellSpawn(code, x, y)[0].y == y
    ensures code == 3 ==> CellSpawn(code, x, y)[0] == Body(CandyCane, x - 128, y - 128, ImageSize)
    ensures code == 4 ==> CellSpawn(code, x, y)[0] == Body(Lollipop, x - 128, y - 32, ImageSize)
  {
  }

  lemma {:induction false} ColumnSpawnCount(layer: Layer, tileSize: int, col: nat, rows: nat)
    requires WellFormed(layer) && col < layer.width && rows <= layer.height
    ensures |ColumnSpawns(layer, tileSize, col, rows)| == SpawningCells(layer.tiles[col], rows)
  {
    if rows > 0 {
      ColumnSpawnCount(layer, tileSize, col, rows - 1);
      CellSpawnTable(layer.tiles[col][rows - 1], col * tileSize, (rows - 1) * tileSize);
    }
  }

  lemma {:induction false} GridSpawnCount(layer: Layer, tileSize: int, cols: nat)
    requires WellFormed(layer) && cols <= layer.width
    ensures |GridSpawns(layer, tileSize, cols)| == SpawningGridCells(layer, cols)
  {
    if cols > 0 {
      GridSpawnCount(layer, tileSize, cols - 1);
      ColumnSpawnCount(layer, tileSize, cols - 1, layer.height);
    }
  }

  /** One background, one object per cell with a code from 1 to 6, three borders. */
  lemma LoadedCount(m: TileMap)
    requires HasLayer(m) && WellFormed(MainLayer(m))
    ensures |LoadedBodies(m)| == 1 + SpawningGridCells(MainLayer(m), MainLayer(m).width) + 3
  {
    GridSpawnCount(MainLayer(m), m.tileWidth, MainLayer(m).width);
  }

  /** The cell (col, row) spawns what its code maps to at (col * tileSize, row * tileSize). */
  predicate SpawnedBy(layer: Layer, tileSize: int, col: int, row: int, b: Body)
    requires WellFormed(layer)
  {
    0 <= col < layer.width && 0 <= row < layer.height
    && b in CellSpawn(layer.tiles[col][row], col * tileSize, row * tileSize)
  }

  lemma {:induction false} ColumnSpawnOrigin(layer: Layer, tileSize: int, col: nat, rows: nat, b: Body) returns (row: int)
    requires WellFormed(layer) && col < layer.width && rows <= layer.height
    requires b in ColumnSpawns(layer, tileSize, col, rows)
    ensures 0 <= row < rows && SpawnedBy(layer, tileSize, col, row, b)
  {
    var last := CellSpawn(layer.tiles[col][rows - 1], col * tileSize, (rows - 1) * tileSize);
    if b in last {
      row := rows - 1;
    } else {
      row := ColumnSpawnOrigin(layer, tileSize, col, rows - 1, b);
    }
  }

  lemma {:induction false} ColumnSpawnsContain(layer: Layer, tileSize: int, col: nat, rows: nat, row: int, b: Body)
    requires WellFormed(layer) && col < layer.width && rows <= layer.height
    requires 0 <= row < rows && SpawnedBy(layer, tileSize, col, row, b)
    ensures b in ColumnSpawns(layer, tileSize, col, rows)
  {
    if row < rows - 1 {
      ColumnSpawnsContain(layer, tileSize, col, rows - 1, row, b);
    }
  }

  lemma {:induction false} GridSpawnOrigin(layer: Layer, tileSize: int, cols: nat, b: Body) returns (col: int, row: int)
    requires WellFormed(layer) && cols <= layer.width
    requires b in GridSpawns(layer, tileSize, cols)
    ensures 0 <= col < cols && SpawnedBy(layer, tileSize, col, row, b)
  {
    if b in ColumnSpawns(layer, tileSize, cols - 1, layer.height) {
      col := cols - 1;
      row := ColumnSpawnOrigin(layer, tileSize, cols - 1, layer.height, b);
    } else {
      col, row := GridSpawnOrigin(layer, tileSize, cols - 1, b);
    }
  }

  lemma {:induction false} GridSpawnsContain(layer: Layer, tileSize: int, cols: nat, col: int, row: int, b: Body)
    requires WellFormed(layer) && cols <= layer.width
    requires 0 <= col < cols && SpawnedBy(layer, tileSize, col, row, b)
    ensures b in GridSpawns(layer, tileSize, cols)
  {
    if col < cols - 1 {
      GridSpawnsContain(layer, tileSize, cols - 1, col, row, b);
    } else {
      ColumnSpawnsContain(layer, tileSize, col, layer.height, row, b);
    }
  }

  /** Every body the grid pass spawns comes from a cell, and every spawning cell's body is there. */
  lemma GridSpawnsExactly(layer: Layer, tileSize: int, b: Body)
    requires WellFormed(layer)
    ensures b in GridSpawns(layer, tileSize, layer.width) <==>
      exists col, row :: SpawnedBy(layer, tileSize, col, row, b)
  {
    if b in GridSpawns(layer, tileSize, layer.width) {
      var col, row := GridSpawnOrigin(layer, tileSize, layer.width, b);
    }
    if exists col, row :: SpawnedBy(layer, tileSize, col, row, b) {
      var col, row :| SpawnedBy(layer, tileSize, col, row, b);
      GridSpawnsContain(layer, tileSize, layer.width, col, row, b);
    }
  }

  // ---------------------------------------------------------------------------------------------
  // The child list

  /** The records of the children, without their identities. */
  function Bodies(cs: seq<Child>): seq<Body>
  {
    if cs == [] then [] else Bodies(cs[..|cs| - 1]) + [cs[|cs| - 1].body]
  }

  lemma BodiesAppend(cs: seq<Child>, c: Child)
    ensures Bodies(cs + [c]) == Bodies(cs) + [c.body]
  {
    assert (cs + [c])[..|cs|] == cs;
  }

  predicate NumberedInOrder(cs: seq<Child>)
  {
    forall k :: 0 <= k < |cs| ==> cs[k].id == k
  }

  predicate Distinct(cs: seq<Child>)
  {
    forall a, b :: 0 <= a < b < |cs| ==> cs[a] != cs[b]
  }

  /** The last player among the children, if there is one. */
  function LastPlayer(cs: seq<Child>): Option<Child>
  {
    if cs == [] then None
    else if cs[|cs| - 1].body.kind == Player then Some(cs[|cs| - 1])
    else LastPlayer(cs[..|cs| - 1])
  }

  lemma {:induction false} LastPlayerIsLast(cs: seq<Child>)
    ensures LastPlayer(cs).Some? ==>
      exists k :: 0 <= k < |cs| && cs[k] == LastPlayer(cs).value && cs[k].body.kind == Player
        && forall later :: k < later < |cs| ==> cs[later].body.kind != Player
    ensures LastPlayer(cs).None? ==> forall k :: 0 <= k < |cs| ==> cs[k].body.kind != Player
  {
    if cs != [] && cs[|cs| - 1].body.kind != Player {
      var init := cs[..|cs| - 1];
      LastPlayerIsLast(init);
      if LastPlayer(cs).Some? {
        var k :| 0 <= k < |init| && init[k] == LastPlayer(init).value && init[k].body.kind == Player
          && forall later :: k < later < |init| ==> init[later].body.kind != Player;
        assert cs[k] == init[k];
      }
    }
  }

  /** The entity children, in child order. */
  function EntitiesOf(cs: seq<Child>): seq<Child>
  {
    if cs == [] then []
    else EntitiesOf(cs[..|cs| - 1]) + (if IsEntity(cs[|cs| - 1].body.kind) then [cs[|cs| - 1]] else [])
  }

  /** The enemy children, in child order. */
  function EnemiesOf(cs: seq<Child>): seq<Child>
  {
    if cs == [] then []
    else EnemiesOf(cs[..|cs| - 1]) + (if IsEnemy(cs[|cs| - 1].body.kind) then [cs[|cs| - 1]] else [])
  }

  /** a keeps some of the elements of b, in b's order. */
  predicate IsSubsequence(a: seq<Child>, b: seq<Child>)
    decreases |b|
  {
    if a == [] then true
    else if b == [] then false
    else (a[|a| - 1] == b[|b| - 1] && IsSubsequence(a[..|a| - 1], b[..|b| - 1])) || IsSubsequence(a, b[..|b| - 1])
  }

  lemma {:induction false} EntitiesExactly(cs: seq<Child>)
    ensures forall c :: c in EntitiesOf(cs) <==> c in cs && IsEntity(c.body.kind)
    ensures IsSubsequence(EntitiesOf(cs), cs)
  {
    if cs != [] {
      var init := cs[..|cs| - 1];
      var last := cs[|cs| - 1];
      EntitiesExactly(init);
      assert cs == init + [last];
      var es := EntitiesOf(init);
      if IsEntity(last.body.kind) {
        assert (es + [last])[..|es|] == es;
      } else {
        assert EntitiesOf(cs) == es;
      }
    }
  }

  lemma {:induction false} EnemiesExactly(cs: seq<Child>)
    ensures forall c :: c in EnemiesOf(cs) <==> c in cs && IsEnemy(c.body.kind)
    ensures IsSubsequence(EnemiesOf(cs), cs)
  {
    if cs != [] {
      var init := cs[..|cs| - 1];
      var last := cs[|cs| - 1];
      EnemiesExactly(init);
      assert cs == init + [last];
      var es := EnemiesOf(init);
      if IsEnemy(last.body.kind) {
        assert (es + [last])[..|es|] == es;
      } else {
        assert EnemiesOf(cs) == es;
      }
    }
  }

  /** Taking the enemies of the entity list gives the enemies of the whole child list. */
  lemma {:induction false} EnemiesOfEntities(cs: seq<Child>)
    ensures EnemiesOf(EntitiesOf(cs)) == EnemiesOf(cs)
  {
    if cs != [] {
      var init := cs[..|cs| - 1];
      var last := cs[|cs| - 1];
      EnemiesOfEntities(init);
      var es := EntitiesOf(init);
      if IsEntity(last.body.kind) {
        assert (es + [last])[..|es|] == es;
      } else {
        assert es + [] == es;
      }
    }
  }

  // ---------------------------------------------------------------------------------------------
  // Reordering children

  function IndexOf(cs: seq<Child>, c: Child): (k: nat)
    requires c in cs
    ensures k < |cs| && cs[k] == c && forall m :: 0 <= m < k ==> cs[m] != c
  {
    if cs[0] == c then 0 else 1 + IndexOf(cs[1..], c)
  }

  /** The engine's SetChildIndex: take c out of the list and put it back at index i. */
  function SetChildIndex(cs: seq<Child>, c: Child, i: nat): (r: seq<Child>)
    requires c in cs && i < |cs|
    ensures |r| == |cs| && multiset(r) == multiset(cs)
  {
    var k := IndexOf(cs, c);
    var rest := cs[..k] + cs[k + 1..];
    assert cs == cs[..k] + [c] + cs[k + 1..];
    assert multiset(cs) == multiset(rest) + multiset{c};
    assert rest == rest[..i] + rest[i..];
    assert multiset(rest[..i] + [c] + rest[i..]) == multiset(rest[..i]) + multiset{c} + multiset(rest[i..]);
    rest[..i] + [c] + rest[i..]
  }

  lemma IndexOfDistinct(cs: seq<Child>, j: nat)
    requires Distinct(cs) && j < |cs|
    ensures IndexOf(cs, cs[j]) == j
  {
  }

  /** Moving the element at j to a later index i shifts the elements between them one place to the front. */
  lemma MoveShape(cs: seq<Child>, j: nat, i: nat)
    requires Distinct(cs) && j < i < |cs|
    ensures var r := SetChildIndex(cs, cs[j], i);
      && r[i] == cs[j]
      && (forall k :: 0 <= k < j ==> r[k] == cs[k])
      && (forall k :: j <= k < i ==> r[k] == cs[k + 1])
      && (forall k :: i < k < |cs| ==> r[k] == cs[k])
  {
    IndexOfDistinct(cs, j);
  }

  lemma {:induction false} DistinctCount(cs: seq<Child>, c: Child)
    requires Distinct(cs)
    ensures multiset(cs)[c] <= 1
  {
    if cs != [] {
      var init := cs[..|cs| - 1];
      assert cs == init + [cs[|cs| - 1]];
      DistinctCount(init, c);
      if c == cs[|cs| - 1] {
        assert c !in init;
      }
    }
  }

  /** A rearrangement of a list without repeated children has none either. */
  lemma DistinctPermutation(cs: seq<Child>, ds: seq<Child>)
    requires Distinct(cs) && multiset(cs) == multiset(ds)
    ensures Distinct(ds)
  {
    forall a, b | 0 <= a < b < |ds|
      ensures ds[a] != ds[b]
    {
      if ds[a] == ds[b] {
        assert ds == ds[..b] + ds[b..];
        assert ds[a] in multiset(ds[..b]);
        assert ds[b] in multiset(ds[b..]);
        assert multiset(ds)[ds[a]] >= 2;
        DistinctCount(cs, ds[a]);
        assert false;
      }
    }
  }

  predicate SortedByY(cs: seq<Child>)
  {
    forall a, b :: 0 <= a < b < |cs| ==> cs[a].body.y <= cs[b].body.y
  }

  /** After the outer pass for i + 1 of the live sort: the children past index i are in order,
      and none of them is above a child at or before i. */
  predicate TailPlaced(cs: seq<Child>, i: int)
  {
    && (forall a, b :: 0 <= a && i < a < b < |cs| ==> cs[a].body.y <= cs[b].body.y)
    && (forall a, b :: 0 <= a <= i < b < |cs| ==> cs[a].body.y <= cs[b].body.y)
  }

  /** During the inner pass of the live sort: no child strictly between j and i is below the child at i. */
  predicate LowestAt(cs: seq<Child>, j: int, i: int)
    requires 0 <= i < |cs|
  {
    forall k :: 0 <= k && j < k < i ==> cs[k].body.y <= cs[i].body.y
  }

  /** A move of the live sort keeps its loop invariants and takes the comparison one step further. */
  lemma LiveMoveKeepsOrder(cs: seq<Child>, j: int, i: int)
    requires Distinct(cs) && 0 <= j < i < |cs|
    requires TailPlaced(cs, i) && LowestAt(cs, j, i) && cs[i].body.y < cs[j].body.y
    ensures var r := SetChildIndex(cs, cs[j], i);
      Distinct(r) && TailPlaced(r, i) && LowestAt(r, j - 1, i)
  {
    MoveShape(cs, j, i);
    var r := SetChildIndex(cs, cs[j], i);
    DistinctPermutation(cs, r);
    forall a, b | 0 <= a <= i < b < |r|
      ensures r[a].body.y <= r[b].body.y
    {
      if a < j {
        assert r[a] == cs[a];
      } else if a < i {
        assert r[a] == cs[a + 1];
      }
    }
  }

  /** When the inner pass ends, the child at i is the lowest of the first i + 1. */
  lemma LivePassDone(cs: seq<Child>, i: int)
    requires 0 <= i < |cs| && TailPlaced(cs, i) && LowestAt(cs, -1, i)
    ensures TailPlaced(cs, i - 1)
  {
  }

  /** The live list still holds every child of the copy, and no more of them. */
  predicate Holds(live: seq<Child>, snapshot: seq<Child>)
  {
    |live| == |snapshot| && forall c :: c in snapshot ==> c in live
  }

  /** One comparison of the sort as written: the children it compares are taken from the snapshot,
      the move is made in the live list. */
  function SnapshotStep(snapshot: seq<Child>, live: seq<Child>, i: int, j: int): (r: seq<Child>)
    requires 0 <= j < i < |snapshot| && Holds(live, snapshot)
    ensures Holds(r, snapshot) && multiset(r) == multiset(live)
  {
    if snapshot[i] != snapshot[j] && snapshot[i].body.y < snapshot[j].body.y then
      var r := SetChildIndex(live, snapshot[j], i);
      assert forall c :: c in live ==> c in multiset(r);
      r
    else live
  }

  /** The inner loop of the sort as written, from j down to 0. */
  function SnapshotInner(snapshot: seq<Child>, live: seq<Child>, i: int, j: int): (r: seq<Child>)
    requires 0 <= i < |snapshot| && -1 <= j < i && Holds(live, snapshot)
    ensures Holds(r, snapshot) && multiset(r) == multiset(live)
    decreases j + 1
  {
    if j < 0 then live else SnapshotInner(snapshot, SnapshotStep(snapshot, live, i, j), i, j - 1)
  }

  /** The outer loop of the sort as written, from i down to 0. */
  function SnapshotOuter(snapshot: seq<Child>, live: seq<Child>, i: int): (r: seq<Child>)
    requires -1 <= i < |snapshot| && Holds(live, snapshot)
    ensures Holds(r, snapshot) && multiset(r) == multiset(live)
    decreases i + 1
  {
    if i < 0 then live else SnapshotOuter(snapshot, SnapshotInner(snapshot, live, i, i - 1), i - 1)
  }

  /** The sort as written applied to a child list: a permutation of it. */
  function SnapshotSort(cs: seq<Child>): (r: seq<Child>)
    ensures multiset(r) == multiset(cs)
  {
    SnapshotOuter(cs, cs, |cs| - 1)
  }

  lemma {:induction false} SnapshotInnerIdle(cs: seq<Child>, i: int, j: int)
    requires SortedByY(cs) && 0 <= i < |cs| && -1 <= j < i
    ensures SnapshotInner(cs, cs, i, j) == cs
    decreases j + 1
  {
    if j >= 0 {
      SnapshotInnerIdle(cs, i, j - 1);
    }
  }

  lemma {:induction false} SnapshotOuterIdle(cs: seq<Child>, i: int)
    requires SortedByY(cs) && -1 <= i < |cs|
    ensures SnapshotOuter(cs, cs, i) == cs
    decreases i + 1
  {
    if i >= 0 {
      SnapshotInnerIdle(cs, i, i - 1);
      SnapshotOuterIdle(cs, i - 1);
    }
  }

  /** Children already in order of y are left where they are. */
  lemma SnapshotSortKeepsSorted(cs: seq<Child>)
    requires SortedByY(cs)
    ensures SnapshotSort(cs) == cs
  {
    SnapshotOuterIdle(cs, |cs| - 1);
  }

  /** SetChildIndex on a list without repeated children, written out. */
  lemma SetChildIndexAt(cs: seq<Child>, k: nat, i: nat)
    requires Distinct(cs) && k < |cs| && i < |cs|
    ensures SetChildIndex(cs, cs[k], i) == (cs[..k] + cs[k + 1..])[..i] + [cs[k]] + (cs[..k] + cs[k + 1..])[i..]
  {
    IndexOfDistinct(cs, k);
  }

  // Three children at y = 5, 3 and 1, in that child order.
  const HighChild: Child := Child(0, Body(Barrier, 0, 5, ImageSize))
  const MiddleChild: Child := Child(1, Body(Barrier, 0, 3, ImageSize))
  const LowChild: Child := Child(2, Body(Barrier, 0, 1, ImageSize))

  lemma MisorderFirstMove()
    ensures SnapshotStep([HighChild, MiddleChild, LowChild], [HighChild, MiddleChild, LowChild], 2, 1)
      == [HighChild, LowChild, MiddleChild]
  {
    var s := [HighChild, MiddleChild, LowChild];
    assert Distinct(s) && Holds(s, s);
    // LowChild is above MiddleChild: MiddleChild is moved to index 2
    SetChildIndexAt(s, 1, 2);
    assert s[..1] + s[2..] == [HighChild, LowChild];
  }

  lemma MisorderSecondMove()
    ensures SnapshotStep([HighChild, MiddleChild, LowChild], [HighChild, LowChild, MiddleChild], 2, 0)
      == [LowChild, MiddleChild, HighChild]
  {
    var s := [HighChild, MiddleChild, LowChild];
    var s1 := [HighChild, LowChild, MiddleChild];
    // LowChild is above HighChild: HighChild is moved to index 2
    assert Distinct(s1) && Holds(s1, s);
    SetChildIndexAt(s1, 0, 2);
    assert s1[..0] + s1[1..] == [LowChild, MiddleChild];
  }

  lemma MisorderFirstPass()
    ensures SnapshotInner([HighChild, MiddleChild, LowChild], [HighChild, MiddleChild, LowChild], 2, 1)
      == [LowChild, MiddleChild, HighChild]
  {
    var s := [HighChild, MiddleChild, LowChild];
    var s1 := [HighChild, LowChild, MiddleChild];
    var s2 := [LowChild, MiddleChild, HighChild];
    MisorderFirstMove();
    MisorderSecondMove();
    assert Holds(s, s) && Holds(s1, s) && Holds(s2, s);
    assert SnapshotInner(s, s2, 2, -1) == s2;
    assert SnapshotInner(s, s1, 2, 0) == s2;
  }

  lemma MisorderSecondPass()
    ensures SnapshotOuter([HighChild, MiddleChild, LowChild], [LowChild, MiddleChild, HighChild], 1)
      == [LowChild, HighChild, MiddleChild]
  {
    var s := [HighChild, MiddleChild, LowChild];
    var s2 := [LowChild, MiddleChild, HighChild];
    var s3 := [LowChild, HighChild, MiddleChild];
    assert Distinct(s2) && Holds(s2, s);
    // the copy still has MiddleChild at index 1 above HighChild at index 0, so HighChild goes to index 1
    SetChildIndexAt(s2, 2, 1);
    assert s2[..2] + s2[3..] == [LowChild, MiddleChild];
    assert SnapshotStep(s, s2, 1, 0) == s3;
    assert Holds(s3, s);
    assert SnapshotInner(s, s3, 1, -1) == s3;
    assert SnapshotInner(s, s2, 1, 0) == s3;
    assert SnapshotInner(s, s3, 0, -1) == s3;
    assert SnapshotOuter(s, s3, -1) == s3;
    assert SnapshotOuter(s, s3, 0) == s3;
  }

  /** Three children at y = 5, 3, 1 in child order end in the order y = 1, 5, 3: the sort as written
      does not order the children by y. */
  lemma SnapshotSortMisorders()
    ensures SnapshotSort([HighChild, MiddleChild, LowChild]) == [LowChild, HighChild, MiddleChild]
    ensures !SortedByY(SnapshotSort([HighChild, MiddleChild, LowChild]))
  {
    MisorderFirstPass();
    MisorderSecondPass();
    var r := [LowChild, HighChild, MiddleChild];
    assert r[1].body.y > r[2].body.y;
  }

  // ---------------------------------------------------------------------------------------------
  // The stage object

  datatype LoadOutcome = Loaded(stage: Stage) | LoadError(message: string)

  class Stage {
    var stageData: TileMap
    var tileSize: int
    var stageWidth: int
    var stageHeight: int
    var children: seq<Child>
    /** The game's player reference as loading leaves it: the player spawned last, or None when
        the map spawns no player and the reference keeps whatever it held before. */
    var player: Option<Child>

    predicate Valid()
      reads this
    {
      Distinct(children)
    }

    /** A stage is built from a map with at least one layer; the tile size is the tile width, for both axes. */
    constructor (m: TileMap)
      requires HasLayer(m) && WellFormed(MainLayer(m))
      ensures Valid() && stageData == m && tileSize == m.tileWidth
      ensures stageWidth == m.width * m.tileWidth && stageHeight == m.height * m.tileHeight
      ensures Bodies(children) == LoadedBodies(m) && NumberedInOrder(children)
      ensures player == LastPlayer(children)
    {
      stageData := m;
      tileSize := m.tileWidth;
      stageWidth, stageHeight := 0, 0;
      children := [];
      player := None;
      new;
      LoadStage();
    }

    /** Opening a stage file: a map without a layer is refused before anything is loaded. */
    static method Open(name: string, m: TileMap) returns (r: LoadOutcome)
      requires HasLayer(m) ==> WellFormed(MainLayer(m))
      ensures r.LoadError? <==> !HasLayer(m)
      ensures r.LoadError? ==> r.message == "Tile file tiled/stages/" + name + ".tmx does not contain a layer!"
      ensures r.Loaded? ==>
        && fresh(r.stage) && r.stage.Valid()
        && Bodies(r.stage.children) == LoadedBodies(m)
        && r.stage.player == LastPlayer(r.stage.children)
    {
      if !HasLayer(m) {
        return LoadError("Tile file tiled/stages/" + name + ".tmx does not contain a layer!");
      }
      var stage := new Stage(m);
      r := Loaded(stage);
    }

    method AddChild(b: Body)
      modifies this`children
      ensures children == old(children) + [Child(|old(children)|, b)]
    {
      children := children + [Child(|children|, b)];
    }

    /** The switch on a tile code: add what the code maps to, placed relative to the cell at (x, y);
        a player also becomes the game's player reference. */
    method SpawnCell(code: int, x: int, y: int)
      requires NumberedInOrder(children) && player == LastPlayer(children)
      modifies this`children, this`player
      ensures Bodies(children) == Bodies(old(children)) + CellSpawn(code, x, y)
      ensures NumberedInOrder(children) && |children| >= |old(children)|
      ensures player == LastPlayer(children)
    {
      var before := children;
      match code {
        case 1 => AddChild(Body(Barrier, x, y, ImageSize));
        case 2 =>
          AddChild(Body(Player, x, y, ImageSize));
          player := Some(children[|children| - 1]);
        case 3 => AddChild(Body(CandyCane, x - 128, y - 128, ImageSize));
        case 4 => AddChild(Body(Lollipop, x - 128, y - 32, ImageSize));
        case 5 => AddChild(Body(PizzaZombie, x, y, ImageSize));
        case 6 => AddChild(Body(TomatoZombie, x, y, ImageSize));
        case _ =>
      }
      if children != before {
        BodiesAppend(before, children[|children| - 1]);
        assert children[..|before|] == before;
      }
    }

    method LoadStage()
      requires HasLayer(stageData) && WellFormed(MainLayer(stageData)) && tileSize == stageData.tileWidth
      requires children == []
      modifies this`stageWidth, this`stageHeight, this`children, this`player
      ensures stageWidth == stageData.width * stageData.tileWidth
      ensures stageHeight == stageData.height * stageData.tileHeight
      ensures Bodies(children) == LoadedBodies(stageData) && NumberedInOrder(children)
      ensures player == LastPlayer(children) && Valid()
    {
      stageWidth := stageData.width * stageData.tileWidth;
      stageHeight := stageData.height * stageData.tileHeight;
      player := None;
      AddChild(BackgroundBody);
      assert Bodies(children) == [BackgroundBody];
      LoadGrid(stageData.layers.value[0]);
      ghost var grid := Bodies(children);
      AddBarrier(Body(Barrier, -64, 0, Sized(64, stageHeight)));
      AddBarrier(Body(Barrier, 0, stageHeight, Sized(stageWidth, 64)));
      AddBarrier(Body(Barrier, stageWidth, 0, Sized(64, stageHeight)));
      assert Bodies(children) == grid + Borders(stageWidth, stageHeight);
      NumberedIsDistinct(children);
    }

    /** The pass over the main layer, column by column and, within a column, row by row. */
    method LoadGrid(mainLayer: Layer)
      requires WellFormed(mainLayer) && NumberedInOrder(children) && player == LastPlayer(children)
      modifies this`children, this`player
      ensures Bodies(children) == Bodies(old(children)) + GridSpawns(mainLayer, tileSize, mainLayer.width)
      ensures NumberedInOrder(children) && player == LastPlayer(children)
    {
      ghost var start := Bodies(children);
      var col := 0;
      while col < mainLayer.width
        invariant 0 <= col <= mainLayer.width
        invariant Bodies(children) == start + GridSpawns(mainLayer, tileSize, col)
        invariant NumberedInOrder(children) && player == LastPlayer(children)
      {
        LoadColumn(mainLayer, col);
        col := col + 1;
      }
    }

    /** The inner loop of the pass: the cells of one column, top to bottom. */
    method LoadColumn(mainLayer: Layer, col: nat)
      requires WellFormed(mainLayer) && col < mainLayer.width
      requires NumberedInOrder(children) && player == LastPlayer(children)
      modifies this`children, this`player
      ensures Bodies(children) == Bodies(old(children)) + ColumnSpawns(mainLayer, tileSize, col, mainLayer.height)
      ensures NumberedInOrder(children) && player == LastPlayer(children)
    {
      ghost var start := Bodies(children);
      var x := col * tileSize;
      var row := 0;
      while row < mainLayer.height
        invariant 0 <= row <= mainLayer.height
        invariant Bodies(children) == start + ColumnSpawns(mainLayer, tileSize, col, row)
        invariant NumberedInOrder(children) && player == LastPlayer(children)
      {
        var code := mainLayer.tiles[col][row];
        var y := row * tileSize;
        ghost var done := ColumnSpawns(mainLayer, tileSize, col, row);
        ghost var cell := CellSpawn(code, x, y);
        assert ColumnSpawns(mainLayer, tileSize, col, row + 1) == done + cell;
        SpawnCell(code, x, y);
        assert Bodies(children) == start + done + cell;
        row := row + 1;
      }
    }

    /** A barrier added as a child; it is not a player, so the player reference stays right. */
    method AddBarrier(b: Body)
      requires b.kind == Barrier && NumberedInOrder(children) && player == LastPlayer(children)
      modifies this`children
      ensures Bodies(children) == Bodies(old(children)) + [b]
      ensures NumberedInOrder(children) && player == LastPlayer(children) && |children| > |old(children)|
    {
      BodiesAppend(children, Child(|children|, b));
      ghost var before := children;
      AddChild(b);
      assert children[..|children| - 1] == before;
    }

    /** The per-frame draw-order sort as written: indices refer to the copy of the child list taken
        at the start, moves are made in the live list. */
    method SortDisplayHierarchy() returns (moves: nat)
      requires Valid()
      modifies this`children
      ensures Valid()
      ensures children == SnapshotSort(old(children))
      ensures multiset(children) == multiset(old(children))
      ensures SortedByY(old(children)) ==> moves == 0 && children == old(children)
    {
      var snapshot := children;
      moves := 0;
      var i := |snapshot| - 1;
      while i >= 0
        invariant -1 <= i < |snapshot| && Holds(children, snapshot)
        invariant SnapshotOuter(snapshot, children, i) == SnapshotSort(snapshot)
        invariant SortedByY(snapshot) ==> moves == 0 && children == snapshot
      {
        var passMoves := SnapshotPass(snapshot, i);
        moves := moves + passMoves;
        i := i - 1;
      }
      DistinctPermutation(snapshot, children);
    }

    /** The inner loop of the sort as written: the child at index i of the copy against those before it. */
    method SnapshotPass(snapshot: seq<Child>, i: int) returns (moves: nat)
      requires 0 <= i < |snapshot| && Holds(children, snapshot)
      modifies this`children
      ensures Holds(children, snapshot) && children == SnapshotInner(snapshot, old(children), i, i - 1)
      ensures SortedByY(snapshot) && old(children) == snapshot ==> moves == 0 && children == snapshot
    {
      ghost var start := children;
      moves := 0;
      var j := i - 1;
      while j >= 0
        invariant -1 <= j < i && Holds(children, snapshot)
        invariant SnapshotInner(snapshot, children, i, j) == SnapshotInner(snapshot, start, i, i - 1)
        invariant SortedByY(snapshot) && start == snapshot ==> moves == 0 && children == snapshot
      {
        ghost var next := SnapshotStep(snapshot, children, i, j);
        if snapshot[i] != snapshot[j] {
          if snapshot[i].body.y < snapshot[j].body.y {
            children := SetChildIndex(children, snapshot[j], i);
            moves := moves + 1;
          }
        }
        assert children == next;
        j := j - 1;
      }
    }

    /** The draw-order sort corrected to read the live list in each comparison: afterwards the children are
        in order of y, and already ordered children are not moved. */
    method SortDisplayHierarchyLive() returns (moves: nat)
      requires Valid()
      modifies this`children
      ensures Valid()
      ensures multiset(children) == multiset(old(children))
      ensures SortedByY(children)
      ensures SortedByY(old(children)) ==> moves == 0 && children == old(children)
    {
      ghost var start := children;
      moves := 0;
      var i := |children| - 1;
      while i >= 0
        invariant -1 <= i < |children| && |children| == |start|
        invariant multiset(children) == multiset(start) && Distinct(children)
        invariant TailPlaced(children, i)
        invariant SortedByY(start) ==> moves == 0 && children == start
      {
        var j := i - 1;
        while j >= 0
          invariant -1 <= j < i && |children| == |start|
          invariant multiset(children) == multiset(start) && Distinct(children)
          invariant TailPlaced(children, i) && LowestAt(children, j, i)
          invariant SortedByY(start) ==> moves == 0 && children == start
        {
          if children[i] != children[j] {
            if children[i].body.y < children[j].body.y {
              LiveMoveKeepsOrder(children, j, i);
              children := SetChildIndex(children, children[j], i);
              moves := moves + 1;
            }
          }
          j := j - 1;
        }
        LivePassDone(children, i);
        i := i - 1;
      }
    }

    /** Once a frame the stage runs the draw-order sort as written: the children are rearranged,
        but, as SnapshotSortMisorders shows, not always into order of y. */
    method Update()
      requires Valid()
      modifies this`children
      ensures Valid()
      ensures children == SnapshotSort(old(children))
      ensures multiset(children) == multiset(old(children))
      ensures SortedByY(old(children)) ==> children == old(children)
    {
      var _ := SortDisplayHierarchy();
    }

    method GetEntities() returns (entities: seq<Child>)
      ensures entities == EntitiesOf(children)
    {
      var all := children;
      entities := [];
      var k := 0;
      while k < |all|
        invariant 0 <= k <= |all|
        invariant entities == EntitiesOf(all[..k])
      {
        assert all[..k + 1][..k] == all[..k];
        if IsEntity(all[k].body.kind) {
          entities := entities + [all[k]];
        }
        k := k + 1;
      }
      assert all[..k] == all;
    }

    method GetEnemies() returns (enemies: seq<Child>)
      ensures enemies == EnemiesOf(children)
    {
      var entities := GetEntities();
      enemies := [];
      var k := 0;
      while k < |entities|
        invariant 0 <= k <= |entities|
        invariant enemies == EnemiesOf(entities[..k])
      {
        assert entities[..k + 1][..k] == entities[..k];
        if IsEnemy(entities[k].body.kind) {
          enemies := enemies + [entities[k]];
        }
        k := k + 1;
      }
      assert entities[..k] == entities;
      EnemiesOfEntities(children);
    }
  }

  lemma NumberedIsDistinct(cs: seq<Child>)
    requires NumberedInOrder(cs)
    ensures Distinct(cs)
  {
    forall a, b | 0 <= a < b < |cs|
      ensures cs[a] != cs[b]
    {
      assert cs[a].id == a && cs[b].id == b;
    }
  }
}
