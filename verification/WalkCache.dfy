/** The window of walkable tiles that a creature keeps around itself. */
module WalkCache {
  datatype Position = Position(x: int, y: int, z: int)

  /** Which tiles the creature may walk on. */
  type World = Position -> bool

  const RADIUS := 11
  const SIZE := 2 * RADIUS + 1

  /** The tile that cell `(r, c)` of a window around `at` stands for, `skew` tiles off. */
  function Tile(at: Position, r: int, c: int, skew: int): Position {
    Position(at.x + c - RADIUS + skew, at.y + r - RADIUS, at.z)
  }

  predicate Inside(r: int, c: int) {
    0 <= r < SIZE && 0 <= c < SIZE
  }

  predicate Centre(r: int, c: int) {
    r == RADIUS && c == RADIUS
  }

  /** At most one tile away on the same floor: any other move is a teleport. */
  predicate IsStep(o: Position, n: Position) {
    o.z == n.z && -1 <= n.x - o.x <= 1 && -1 <= n.y - o.y <= 1
  }

  predicate SouthDiagonal(o: Position, n: Position) {
    n.y > o.y && n.x != o.x
  }

  /** How far off cell `(r, c)` looks after a step: a step south and sideways leaves the first row
      unshifted and shifts the last, which was fresh; the column refreshed last is right. */
  function Skew(o: Position, n: Position, r: int, c: int): int {
    var aside := n.x - o.x;
    if !SouthDiagonal(o, n) || NewColumn(o, n, c) then 0
    else if r == 0 then -aside
    else if r == SIZE - 1 then aside
    else 0
  }

  /** Two worlds that differ in no tile but these two. */
  ghost predicate SameBut(before: World, after: World, p: Position, q: Position) {
    forall t: Position :: t != p && t != q ==> before(t) == after(t)
  }

  /** The rows of the window, northernmost first. */
  type Window = seq<seq<bool>>

  ghost predicate Square(w: Window) {
    |w| == SIZE && forall r :: 0 <= r < SIZE ==> |w[r]| == SIZE
  }

  /** The row that comes into view. */
  predicate NewRow(o: Position, n: Position, r: int) {
    (n.y < o.y && r == 0) || (n.y > o.y && r == SIZE - 1)
  }

  /** The column that comes into view. */
  predicate NewColumn(o: Position, n: Position, c: int) {
    (n.x < o.x && c == 0) || (n.x > o.x && c == SIZE - 1)
  }

  function FreshRow(walk: World, at: Position, r: int): (row: seq<bool>)
    ensures |row| == SIZE && forall c :: 0 <= c < SIZE ==> row[c] == walk(Tile(at, r, c, 0))
  {
    seq(SIZE, c => walk(Tile(at, r, c, 0)))
  }

  /** One cell set, if it lies in the window. */
  function Put(w: Window, r: int, c: int, v: bool): (w': Window)
    requires Square(w)
    ensures Square(w')
    ensures forall i, j :: Inside(i, j) ==> w'[i][j] == if i == r && j == c then v else w[i][j]
  {
    if Inside(r, c) then w[r := w[r][c := v]] else w
  }

  /** The window after the rows followed a step. */
  function RowsMoved(w: Window, walk: World, o: Position, n: Position): (w': Window)
    requires Square(w)
    ensures Square(w')
  {
    if n.y < o.y then [FreshRow(walk, n, 0)] + w[..SIZE - 1]
    else if n.y > o.y then w[1..] + [FreshRow(walk, n, SIZE - 1)]
    else w
  }

  /** Every cell but the creature's own shows its tile. */
  ghost predicate Agrees(w: Window, walk: World, at: Position) {
    Square(w) && forall r, c :: Inside(r, c) && !Centre(r, c) ==> w[r][c] == walk(Tile(at, r, c, 0))
  }

  /** A row after the columns followed a step: fresh where it comes into view; the first row does not
      shift when the step went north or south as well. */
  function RowAside(row: seq<bool>, walk: World, o: Position, n: Position, r: int): (row': seq<bool>)
    requires |row| == SIZE
    ensures |row'| == SIZE
  {
    var still := r == 0 && o.y != n.y;
    if n.x > o.x then (if still then row[..SIZE - 1] else row[1..]) + [walk(Tile(n, r, SIZE - 1, 0))]
    else if n.x < o.x then [walk(Tile(n, r, 0, 0))] + (if still then row[1..] else row[..SIZE - 1])
    else row
  }

  /** The first `k` elements have moved one down; element `k` follows. */
  lemma {:induction false} PulledDown<T>(s: seq<T>, k: nat)
    requires k + 1 < |s|
    ensures var now := s[1..k + 1] + s[k..]; now[k := now[k + 1]] == s[1..k + 2] + s[k + 1..]
  {
  }

  class Cache {
    var pos: Position
    const rows: array<seq<bool>>
    var isMapLoaded: bool

    ghost predicate Valid()
      reads this, rows
    {
      Square(rows[..])
    }

    constructor (at: Position)
      ensures Valid() && fresh(rows) && pos == at && !isMapLoaded
    {
      pos, isMapLoaded := at, false;
      rows := new seq<bool>[SIZE](i => seq(SIZE, j => false));
    }

    method UpdateTileCache(walk: World, dx: int, dy: int)
      requires Valid()
      modifies rows
      ensures Valid()
      ensures rows[..] == Put(old(rows[..]), RADIUS + dy, RADIUS + dx, walk(Position(pos.x + dx, pos.y + dy, pos.z)))
    {
      if -RADIUS <= dx <= RADIUS && -RADIUS <= dy <= RADIUS {
        var r := RADIUS + dy;
        ghost var w := rows[..];
        rows[r] := rows[r][RADIUS + dx := walk(Position(pos.x + dx, pos.y + dy, pos.z))];
        assert rows[..] == w[r := rows[r]];
      }
    }

    method UpdateTileAt(walk: World, p: Position)
      requires Valid()
      modifies rows
      ensures Valid()
      ensures rows[..] == if p.z == pos.z then Put(old(rows[..]), RADIUS + p.y - pos.y, RADIUS + p.x - pos.x, walk(p))
                          else old(rows[..])
    {
      if p.z == pos.z {
        UpdateTileCache(walk, p.x - pos.x, p.y - pos.y);
      }
    }

    /** All of row `dy` is looked up again. */
    method RefreshRow(walk: World, dy: int)
      requires Valid() && -RADIUS <= dy <= RADIUS
      modifies rows
      ensures Valid() && rows[..] == old(rows[..])[RADIUS + dy := FreshRow(walk, pos, RADIUS + dy)]
    {
      var r := RADIUS + dy;
      ghost var w := rows[..];
      for x := -RADIUS to RADIUS + 1
        invariant Valid() && rows[..] == w[r := rows[r]]
        invariant forall c :: 0 <= c < RADIUS + x ==> rows[r][c] == FreshRow(walk, pos, r)[c]
      {
        UpdateTileCache(walk, x, dy);
      }
      assert rows[r] == FreshRow(walk, pos, r);
    }

    /** Column `dx` is looked up again. */
    method RefreshColumn(walk: World, dx: int)
      requires Valid() && -RADIUS <= dx <= RADIUS
      modifies rows
      ensures Valid()
      ensures forall r :: 0 <= r < SIZE ==> rows[r] == old(rows[r])[RADIUS + dx := walk(Tile(pos, r, RADIUS + dx, 0))]
    {
      for y := -RADIUS to RADIUS + 1
        invariant Valid()
        invariant forall r :: 0 <= r < SIZE ==>
                    rows[r] == if r < RADIUS + y then old(rows[r])[RADIUS + dx := walk(Tile(pos, r, RADIUS + dx, 0))]
                               else old(rows[r])
      {
        UpdateTileCache(walk, dx, y);
      }
    }

    method UpdateMapCache(walk: World)
      requires Valid()
      modifies rows
      ensures Valid() && forall r :: 0 <= r < SIZE ==> rows[r] == FreshRow(walk, pos, r)
    {
      for y := -RADIUS to RADIUS + 1
        invariant Valid() && forall r :: 0 <= r < RADIUS + y ==> rows[r] == FreshRow(walk, pos, r)
      {
        RefreshRow(walk, y);
      }
    }

    /** Every row moves one down; the first stays as well. */
    method ShiftSouth()
      requires Valid()
      modifies rows
      ensures Valid() && rows[..] == [old(rows[0])] + old(rows[..SIZE - 1])
    {
      ghost var w := rows[..];
      var y := SIZE - 1;
      while y > 0
        invariant 0 <= y < SIZE && Valid() && rows[..] == w[..y + 1] + w[y..SIZE - 1]
      {
        y := y - 1;
        rows[y + 1] := rows[y];
        assert rows[..] == w[..y + 1] + w[y..SIZE - 1];
      }
    }

    /** Every row moves one up; the last stays as well. */
    method ShiftNorth()
      requires Valid()
      modifies rows
      ensures Valid() && rows[..] == old(rows[1..]) + [old(rows[SIZE - 1])]
    {
      ghost var w := rows[..];
      for y := 0 to SIZE - 1
        invariant Valid() && forall r :: 0 <= r < SIZE ==> rows[..][r] == w[if r < y then r + 1 else r]
      {
        ghost var before := rows[..];
        rows[y] := rows[y + 1];
        assert rows[..] == before[y := before[y + 1]];
      }
      assert rows[..] == w[1..] + [w[SIZE - 1]];
    }

    method ShiftRowWest(y: int)
      requires Valid() && 0 <= y < SIZE
      modifies rows
      ensures Valid() && rows[..] == old(rows[..])[y := old(rows[y])[1..] + [old(rows[y])[SIZE - 1]]]
    {
      ghost var w, row := rows[..], rows[y];
      assert row[1..1] + row[0..] == row && w[y := row] == w;
      for x := 0 to SIZE - 1
        invariant Valid() && rows[..] == w[y := row[1..x + 1] + row[x..]]
      {
        rows[y] := rows[y][x := rows[y][x + 1]];
        PulledDown(row, x);
      }
      assert row[1..SIZE] + row[SIZE - 1..] == row[1..] + [row[SIZE - 1]];
    }

    method ShiftRowEast(y: int)
      requires Valid() && 0 <= y < SIZE
      modifies rows
      ensures Valid() && rows[..] == old(rows[..])[y := [old(rows[y])[0]] + old(rows[y])[..SIZE - 1]]
    {
      ghost var w, row := rows[..], rows[y];
      var x := SIZE - 1;
      assert row[..SIZE] + row[SIZE - 1..SIZE - 1] == row && w[y := row] == w;
      while x > 0
        invariant 0 <= x < SIZE && Valid() && rows[..] == w[y := row[..x + 1] + row[x..SIZE - 1]]
      {
        x := x - 1;
        rows[y] := rows[y][x + 1 := rows[y][x]];
        assert rows[y] == row[..x + 1] + row[x..SIZE - 1];
      }
      assert row[..1] + row[0..SIZE - 1] == [row[0]] + row[..SIZE - 1];
    }

    /** The rows from `starty` to `endy` move one to the left; their last cells stay as well. */
    method ShiftWest(starty: int, endy: int)
      requires Valid() && 0 <= starty <= endy + 1 <= SIZE
      modifies rows
      ensures Valid()
      ensures forall r :: 0 <= r < SIZE ==>
                rows[r] == if starty <= r <= endy then old(rows[r])[1..] + [old(rows[r])[SIZE - 1]] else old(rows[r])
    {
      for y := starty to endy + 1
        invariant Valid()
        invariant forall r :: 0 <= r < SIZE ==>
                    rows[r] == if starty <= r < y then old(rows[r])[1..] + [old(rows[r])[SIZE - 1]] else old(rows[r])
      {
        ShiftRowWest(y);
      }
    }

    /** The rows from `starty` to `endy` move one to the right; their first cells stay as well. */
    method ShiftEast(starty: int, endy: int)
      requires Valid() && 0 <= starty <= endy + 1 <= SIZE
      modifies rows
      ensures Valid()
      ensures forall r :: 0 <= r < SIZE ==>
                rows[r] == if starty <= r <= endy then [old(rows[r])[0]] + old(rows[r])[..SIZE - 1] else old(rows[r])
    {
      for y := starty to endy + 1
        invariant Valid()
        invariant forall r :: 0 <= r < SIZE ==>
                    rows[r] == if starty <= r < y then [old(rows[r])[0]] + old(rows[r])[..SIZE - 1] else old(rows[r])
      {
        ShiftRowEast(y);
      }
    }

    /** Follows a step north or south: the rows move, and the row that comes into view is fresh. */
    method MoveRows(walk: World, oldPos: Position)
      requires Valid() && IsStep(oldPos, pos)
      modifies rows
      ensures Valid() && rows[..] == RowsMoved(old(rows[..]), walk, oldPos, pos)
    {
      if oldPos.y > pos.y {
        ShiftSouth();
        RefreshRow(walk, -RADIUS);
      } else if oldPos.y < pos.y {
        ShiftNorth();
        RefreshRow(walk, RADIUS);
      }
    }

    /** Follows a step east or west. */
    method MoveColumns(walk: World, oldPos: Position)
      requires Valid() && IsStep(oldPos, pos)
      modifies rows
      ensures Valid() && forall r :: 0 <= r < SIZE ==> rows[r] == RowAside(old(rows[r]), walk, oldPos, pos, r)
    {
      var starty, endy := 0, SIZE - 1;
      var dy := if oldPos.y > pos.y then oldPos.y - pos.y else pos.y - oldPos.y;
      if dy < 0 {
        endy := endy + dy;
      } else if dy > 0 {
        starty := dy;
      }
      if oldPos.x < pos.x {
        ShiftWest(starty, endy);
        RefreshColumn(walk, RADIUS);
      } else if oldPos.x > pos.x {
        ShiftEast(starty, endy);
        RefreshColumn(walk, -RADIUS);
      }
    }

    /** What the creature's own step makes of its window. */
    method FollowStep(walk: World, oldPos: Position)
      requires Valid() && IsStep(oldPos, pos)
      modifies rows
      ensures Valid() && Followed(old(rows[..]), rows[..], walk, oldPos, pos)
    {
      MoveRows(walk, oldPos);
      ghost var moved := rows[..];
      MoveColumns(walk, oldPos);
      ghost var aside := rows[..];
      UpdateTileAt(walk, oldPos);
      assert Aside(moved, aside, walk, oldPos, pos);
    }

    /** The creature itself moved to `pos`; afterwards the world is `walk`. */
    method OnOwnMove(walk: World, oldPos: Position, teleport: bool)
      requires Valid() && (teleport || oldPos.z != pos.z || IsStep(oldPos, pos))
      modifies rows
      ensures Valid()
      ensures !isMapLoaded ==> rows[..] == old(rows[..])
      ensures isMapLoaded && (teleport || oldPos.z != pos.z) ==> Agrees(rows[..], walk, pos)
      ensures isMapLoaded && !teleport && oldPos.z == pos.z ==> Followed(old(rows[..]), rows[..], walk, oldPos, pos)
    {
      if isMapLoaded {
        if teleport || oldPos.z != pos.z {
          UpdateMapCache(walk);
        } else {
          FollowStep(walk, oldPos);
        }
      }
    }

    /** Another creature moved. */
    method OnOtherMove(walk: World, oldPos: Position, newPos: Position, ghost before: World)
      requires Valid() && SameBut(before, walk, oldPos, newPos)
      requires isMapLoaded ==> Agrees(rows[..], before, pos)
      modifies rows
      ensures Valid() && (isMapLoaded ==> Agrees(rows[..], walk, pos))
    {
      if isMapLoaded {
        UpdateTileAt(walk, newPos);
        UpdateTileAt(walk, oldPos);
      }
    }

    /** Another creature appeared on a tile, or was removed from it. */
    method OnOtherPresence(walk: World, p: Position, ghost before: World)
      requires Valid() && SameBut(before, walk, p, p)
      requires isMapLoaded ==> Agrees(rows[..], before, pos)
      modifies rows
      ensures Valid() && (isMapLoaded ==> Agrees(rows[..], walk, pos))
    {
      if isMapLoaded {
        if p.z == pos.z {
          UpdateTileAt(walk, p);
        } else {
          Unseen(rows[..], before, walk, pos, p);
        }
      }
    }

    /** Something on a tile was added, changed or taken away.  The window is right afterwards exactly
        when the change is one that is looked at, or does not show. */
    method OnTileItem(walk: World, p: Position, change: Change, ghost before: World)
      requires Valid() && SameBut(before, walk, p, p)
      requires isMapLoaded ==> Agrees(rows[..], before, pos)
      modifies rows
      ensures Valid() && (isMapLoaded ==> (Agrees(rows[..], walk, pos) <==> !Overlooked(before, walk, pos, p, change)))
    {
      if isMapLoaded && LookedAt(change) && p.z == pos.z {
        UpdateTileAt(walk, p);
      } else if isMapLoaded {
        Unseen(rows[..], before, walk, pos, p);
      }
    }

    method OnAppear(walk: World)
      requires Valid()
      modifies this`isMapLoaded, rows
      ensures Valid() && isMapLoaded && Agrees(rows[..], walk, pos)
    {
      isMapLoaded := true;
      UpdateMapCache(walk);
    }

    /** 1 for a tile that may be walked on, 0 for one that may not, 2 for one out of sight. */
    method GetWalkCache(p: Position, useCacheMap: bool, ghost walk: World) returns (answer: int)
      requires Valid() && Agrees(rows[..], walk, pos)
      ensures answer == if !useCacheMap then 2
                        else if p.z != pos.z then 0
                        else if p == pos then 1
                        else if !Inside(RADIUS + p.y - pos.y, RADIUS + p.x - pos.x) then 2
                        else if walk(p) then 1 else 0
    {
      if !useCacheMap { return 2; }
      if pos.z != p.z { return 0; }
      if p == pos { return 1; }
      var dx := p.x - pos.x;
      if -RADIUS <= dx <= RADIUS {
        var dy := p.y - pos.y;
        if -RADIUS <= dy <= RADIUS {
          assert Tile(pos, RADIUS + dy, RADIUS + dx, 0) == p;
          if rows[RADIUS + dy][RADIUS + dx] { return 1; }
          return 0;
        }
      }
      return 2;
    }

    /** Any run of moves, arrivals, removals and changes on the map keeps the window right, as long as no step of the
        creature itself goes south and sideways, and no change that shows is overlooked. */
    method Run(walk0: World, events: seq<Event>)
      requires Valid() && isMapLoaded && Agrees(rows[..], walk0, pos)
      requires forall i :: 0 <= i < |events| ==>
                 Possible(walk0, pos, events, i) && !Astray(pos, events, i) && !Missed(walk0, pos, events, i)
      modifies this`pos, rows
      ensures Valid() && pos == PlaceAfter(old(pos), events) && Agrees(rows[..], WorldAfter(walk0, events), pos)
    {
      ghost var start := pos;
      for i := 0 to |events|
        invariant Valid() && isMapLoaded && pos == PlaceAfter(start, events[..i])
        invariant Agrees(rows[..], WorldAfter(walk0, events[..i]), pos)
      {
        assert events[..i + 1][..i] == events[..i];
        assert Possible(walk0, start, events, i) && !Astray(start, events, i) && !Missed(walk0, start, events, i);
        ghost var before, w := WorldAfter(walk0, events[..i]), rows[..];
        match events[i]
        case OwnMove(to, teleport, walk) =>
          var oldPos := pos;
          pos := to;
          OnOwnMove(walk, oldPos, teleport);
          if !teleport && oldPos.z == to.z { StepExactly(w, rows[..], before, walk, oldPos, to); }
        case OtherMove(from, to, walk) => OnOtherMove(walk, from, to, before);
        case OtherPresence(at, walk) => OnOtherPresence(walk, at, before);
        case TileItem(at, change, walk) => OnTileItem(walk, at, change, before);
      }
      assert events[..|events|] == events;
    }
  }

  /** A change on the map, and the world after it. */
  datatype Event = OwnMove(to: Position, teleport: bool, walk: World)
                 | OtherMove(from: Position, to: Position, walk: World)
                 | OtherPresence(at: Position, walk: World)
                 | TileItem(at: Position, change: Change, walk: World)

  /** What a type says about walking, and whether its items are the ground of a tile. */
  datatype Blocking = Blocking(solid: bool, pathFind: bool, ground: bool)

  datatype Change = Added | Updated(was: Blocking, now: Blocking) | Removed(was: Blocking)

  /** Changes between types that block nothing are passed over. */
  predicate LookedAt(change: Change) {
    match change
    case Added => true
    case Updated(was, now) => was.solid || was.pathFind || now.pathFind || now.solid
    case Removed(was) => was.solid || was.pathFind || was.ground
  }

  /** A cell of the window other than the creature's own stands for the tile. */
  predicate InSight(at: Position, p: Position) {
    p.z == at.z && p != at && Inside(RADIUS + p.y - at.y, RADIUS + p.x - at.x)
  }

  /** The change opens or closes a tile in sight, but is passed over. */
  ghost predicate Overlooked(before: World, walk: World, at: Position, p: Position, change: Change) {
    !LookedAt(change) && InSight(at, p) && before(p) != walk(p)
  }

  /** A window that was left alone is right exactly when the one tile that changed does not show. */
  lemma {:induction false} Unseen(w: Window, before: World, walk: World, at: Position, p: Position)
    requires Agrees(w, before, at) && SameBut(before, walk, p, p)
    ensures Agrees(w, walk, at) <==> !InSight(at, p) || before(p) == walk(p)
  {
    var r, c := RADIUS + p.y - at.y, RADIUS + p.x - at.x;
    if InSight(at, p) {
      assert Tile(at, r, c, 0) == p && !Centre(r, c);
      assert w[r][c] == before(Tile(at, r, c, 0));
    }
    if !InSight(at, p) || before(p) == walk(p) {
      forall r, c | Inside(r, c) && !Centre(r, c) ensures w[r][c] == walk(Tile(at, r, c, 0)) {
        assert Tile(at, r, c, 0) == p ==> InSight(at, p);
      }
    }
  }

  /** What the flags of its things say of a tile: there is a ground, and nothing is in the way. */
  predicate FlagsAllow(tile: seq<Blocking>) {
    && (exists i :: 0 <= i < |tile| && tile[i].ground)
    && forall i :: 0 <= i < |tile| ==> !tile[i].solid && !tile[i].pathFind
  }

  /** The tile after something on it was added, changed or taken away at place `k`. */
  ghost predicate Changed(tile: seq<Blocking>, k: nat, change: Change, tile': seq<Blocking>) {
    match change
    case Added => k <= |tile| && exists b :: tile' == tile[..k] + [b] + tile[k..]
    case Updated(was, now) => k < |tile| && tile[k] == was && tile' == tile[k := now]
    case Removed(was) => k < |tile| && tile[k] == was && tile' == tile[..k] + tile[k + 1..]
  }

  lemma {:induction false} AlikeSet(tile: seq<Blocking>, k: nat, b: Blocking)
    requires k < |tile| && tile[k].ground == b.ground && tile[k].solid == b.solid && tile[k].pathFind == b.pathFind
    ensures FlagsAllow(tile) == FlagsAllow(tile[k := b])
  {
    assert tile[k := b] == tile;
  }

  lemma {:induction false} AllowedWithout(tile: seq<Blocking>, k: nat)
    requires k < |tile| && !tile[k].ground && !tile[k].solid && !tile[k].pathFind
    ensures FlagsAllow(tile) == FlagsAllow(tile[..k] + tile[k + 1..])
  {
    var less := tile[..k] + tile[k + 1..];
    if FlagsAllow(tile) {
      var i :| 0 <= i < |tile| && tile[i].ground;
      assert less[if i < k then i else i - 1].ground;
    }
    if FlagsAllow(less) {
      var i :| 0 <= i < |less| && less[i].ground;
      assert tile[if i < k then i else i + 1].ground;
      forall i | 0 <= i < |tile| ensures !tile[i].solid && !tile[i].pathFind {
        assert i != k ==> tile[i] == less[if i < k then i else i - 1];
      }
    }
  }

  /** A change that opens or closes the tile by these flags is looked at, unless it makes a ground of
      what was none, or the other way round. */
  lemma {:induction false} FlagsLookedAt(tile: seq<Blocking>, k: nat, change: Change, tile': seq<Blocking>)
    requires Changed(tile, k, change, tile') && (change.Updated? ==> change.was.ground == change.now.ground)
    requires FlagsAllow(tile) != FlagsAllow(tile')
    ensures LookedAt(change)
  {
    if !LookedAt(change) {
      if change.Updated? { AlikeSet(tile, k, change.now); } else { AllowedWithout(tile, k); }
    }
  }

  /** A plain ground that becomes an open trapdoor blocks nothing before and after, so the window
      still shows a tile that may be walked on. */
  lemma {:induction false} TrapdoorOverlooked(before: World, walk: World, at: Position, p: Position)
    requires InSight(at, p) && before(p) && !walk(p)
    ensures Overlooked(before, walk, at, p, Updated(Blocking(false, false, true), Blocking(false, false, true)))
  {
  }

  ghost function PlaceAfter(at: Position, events: seq<Event>): Position {
    if events == [] then at
    else if events[|events| - 1].OwnMove? then events[|events| - 1].to
    else PlaceAfter(at, events[..|events| - 1])
  }

  ghost function WorldAfter(walk: World, events: seq<Event>): World {
    if events == [] then walk else events[|events| - 1].walk
  }

  /** Event `i` changes no tiles but those it is about; a move that is no teleport is a step. */
  ghost predicate Possible(walk: World, at: Position, events: seq<Event>, i: nat)
    requires i < |events|
  {
    var before, here := WorldAfter(walk, events[..i]), PlaceAfter(at, events[..i]);
    match events[i]
    case OwnMove(to, teleport, after) => teleport || here.z != to.z
        || (IsStep(here, to) && SameBut(before, after, here, to))
    case OtherMove(from, to, after) => SameBut(before, after, from, to)
    case OtherPresence(p, after) => SameBut(before, after, p, p)
    case TileItem(p, change, after) => SameBut(before, after, p, p)
  }

  /** Event `i` is a change that is overlooked. */
  ghost predicate Missed(walk: World, at: Position, events: seq<Event>, i: nat)
    requires i < |events|
  {
    events[i].TileItem?
    && Overlooked(WorldAfter(walk, events[..i]), events[i].walk, PlaceAfter(at, events[..i]), events[i].at,
        events[i].change)
  }

  ghost predicate Astray(at: Position, events: seq<Event>, i: nat)
    requires i < |events|
  {
    var here := PlaceAfter(at, events[..i]);
    events[i].OwnMove? && !events[i].teleport && here.z == events[i].to.z && SouthDiagonal(here, events[i].to)
  }

  ghost predicate Aside(w: Window, w': Window, walk: World, o: Position, n: Position)
    requires Square(w) && Square(w')
  {
    forall r :: 0 <= r < SIZE ==> w'[r] == RowAside(w[r], walk, o, n, r)
  }

  /** The rows follow the step, then the columns, then the tile left behind is looked up. */
  ghost predicate Followed(w: Window, w': Window, walk: World, o: Position, n: Position)
    requires Square(w) && Square(w')
  {
    exists aside: Window :: Square(aside) && Aside(RowsMoved(w, walk, o, n), aside, walk, o, n)
      && w' == Put(aside, RADIUS + o.y - n.y, RADIUS + o.x - n.x, walk(o))
  }

  // ------------------------------------------------------ what a step shows

  /** The cell of the tile that a step leaves behind. */
  predicate Left(o: Position, n: Position, r: int, c: int) {
    r == RADIUS + o.y - n.y && c == RADIUS + o.x - n.x
  }

  /** The column a cell comes from when the rows shift sideways. */
  function FromColumn(o: Position, n: Position, r: int, c: int): int {
    if r == 0 && o.y != n.y then c else c + n.x - o.x
  }

  lemma {:induction false} ColumnMoved(row: seq<bool>, walk: World, o: Position, n: Position, r: int, c: int)
    requires |row| == SIZE && Inside(r, c) && IsStep(o, n)
    ensures RowAside(row, walk, o, n, r)[c] ==
            if NewColumn(o, n, c) then walk(Tile(n, r, c, 0))
            else if n.x == o.x then row[c] else row[FromColumn(o, n, r, c)]
  {
  }

  lemma {:induction false} RowMoved(w: Window, before: World, walk: World, o: Position, n: Position, r: int, c: int)
    requires Agrees(w, before, o) && IsStep(o, n) && SameBut(before, walk, o, n) && Inside(r, c)
    requires NewRow(o, n, r) || (!Centre(r + n.y - o.y, c) && Position(o.x + c - RADIUS, n.y + r - RADIUS, n.z) != n)
    ensures RowsMoved(w, walk, o, n)[r][c]
            == walk(Position((if NewRow(o, n, r) then n.x else o.x) + c - RADIUS, n.y + r - RADIUS, n.z))
  {
    if !NewRow(o, n, r) {
      var r' := r + n.y - o.y;
      assert RowsMoved(w, walk, o, n)[r] == w[r'];
      assert w[r'][c] == before(Tile(o, r', c, 0));
    }
  }

  /** The cell that a shifted cell comes from shows the tile that the shifted cell is to show. */
  lemma {:induction false} ShiftedShows(w: Window, before: World, walk: World, o: Position, n: Position, r: int, c: int,
                                        from: int)
    requires Agrees(w, before, o) && IsStep(o, n) && SameBut(before, walk, o, n) && Inside(r, c) && !Centre(r, c)
    requires !NewColumn(o, n, c) && !Left(o, n, r, c) && from == (if n.x == o.x then c else FromColumn(o, n, r, c))
    ensures RowsMoved(w, walk, o, n)[r][from] == walk(Tile(n, r, c, Skew(o, n, r, c)))
  {
    RowMoved(w, before, walk, o, n, r, from);
  }

  /** After the shifts and the fresh lines every cell shows its tile, or one aside where `Skew` says so,
      except the cell of the tile left behind. */
  lemma {:induction false} AsideShows(w: Window, before: World, walk: World, o: Position, n: Position, r: int, c: int)
    requires Agrees(w, before, o) && IsStep(o, n) && SameBut(before, walk, o, n)
    requires Inside(r, c) && !Centre(r, c) && !Left(o, n, r, c)
    ensures RowAside(RowsMoved(w, walk, o, n)[r], walk, o, n, r)[c] == walk(Tile(n, r, c, Skew(o, n, r, c)))
  {
    ColumnMoved(RowsMoved(w, walk, o, n)[r], walk, o, n, r, c);
    if !NewColumn(o, n, c) {
      ShiftedShows(w, before, walk, o, n, r, c, if n.x == o.x then c else FromColumn(o, n, r, c));
    }
  }

  lemma {:induction false} LeftShows(walk: World, o: Position, n: Position, r: int, c: int)
    requires IsStep(o, n) && Left(o, n, r, c)
    ensures Tile(n, r, c, Skew(o, n, r, c)) == o
  {
  }

  /** After a step every cell shows its tile, or one aside where `Skew` says so. */
  lemma {:induction false} StepShows(w: Window, aside: Window, w': Window, before: World, walk: World, o: Position,
                                     n: Position, r: int, c: int)
    requires Agrees(w, before, o) && IsStep(o, n) && SameBut(before, walk, o, n)
    requires Square(aside) && Aside(RowsMoved(w, walk, o, n), aside, walk, o, n)
    requires w' == Put(aside, RADIUS + o.y - n.y, RADIUS + o.x - n.x, walk(o)) && Inside(r, c) && !Centre(r, c)
    ensures w'[r][c] == walk(Tile(n, r, c, Skew(o, n, r, c)))
  {
    if Left(o, n, r, c) {
      LeftShows(walk, o, n, r, c);
    } else {
      AsideShows(w, before, walk, o, n, r, c);
    }
  }

  /** The first and the last row look alike one tile aside. */
  ghost predicate AlikeAside(walk: World, o: Position, n: Position) {
    var first, last := 0, SIZE - 1;
    && (forall c :: 0 <= c < SIZE ==> Alike(walk, o, n, first, c))
    && (forall c :: 0 <= c < SIZE ==> Alike(walk, o, n, last, c))
  }

  ghost predicate Alike(walk: World, o: Position, n: Position, r: int, c: int) {
    walk(Tile(n, r, c, Skew(o, n, r, c))) == walk(Tile(n, r, c, 0))
  }

  /** After a step the window is right exactly when the step did not go south and sideways, or when
      the first and last rows of the world happen to look alike one tile aside. */
  lemma {:induction false} StepExactly(w: Window, w': Window, before: World, walk: World, o: Position, n: Position)
    requires Agrees(w, before, o) && IsStep(o, n) && SameBut(before, walk, o, n)
    requires Square(w') && Followed(w, w', walk, o, n)
    ensures Agrees(w', walk, n) <==> !SouthDiagonal(o, n) || AlikeAside(walk, o, n)
    ensures forall r, c :: 0 < r < SIZE - 1 && 0 <= c < SIZE && !Centre(r, c) ==> w'[r][c] == walk(Tile(n, r, c, 0))
  {
    var aside: Window :| Square(aside) && Aside(RowsMoved(w, walk, o, n), aside, walk, o, n)
      && w' == Put(aside, RADIUS + o.y - n.y, RADIUS + o.x - n.x, walk(o));
    forall r, c | Inside(r, c) && !Centre(r, c) ensures w'[r][c] == walk(Tile(n, r, c, Skew(o, n, r, c))) {
      StepShows(w, aside, w', before, walk, o, n, r, c);
    }
    SkewedAgrees(w', walk, o, n);
  }

  ghost predicate Striped(walk: World) {
    forall p: Position :: walk(p) <==> p.x % 2 == 0
  }

  /** On a striped map every step south and sideways leaves the window wrong. */
  lemma {:induction false} StripesGoWrong(w: Window, w': Window, o: Position, n: Position, walk: World)
    requires Striped(walk) && Agrees(w, walk, o)
    requires IsStep(o, n) && SouthDiagonal(o, n) && Square(w') && Followed(w, w', walk, o, n)
    ensures !Agrees(w', walk, n)
  {
    StepExactly(w, w', walk, walk, o, n);
    StripesDiffer(walk, o, n);
  }

  lemma {:induction false} StripesDiffer(walk: World, o: Position, n: Position)
    requires Striped(walk) && IsStep(o, n) && SouthDiagonal(o, n)
    ensures !AlikeAside(walk, o, n)
  {
    var first := 0;
    assert Tile(n, first, RADIUS, Skew(o, n, first, RADIUS)).x % 2 != Tile(n, first, RADIUS, 0).x % 2;
    assert !Alike(walk, o, n, first, RADIUS);
  }

  lemma {:induction false} SkewedAgrees(w: Window, walk: World, o: Position, n: Position)
    requires Square(w) && forall r, c :: Inside(r, c) && !Centre(r, c) ==>
               w[r][c] == walk(Tile(n, r, c, Skew(o, n, r, c)))
    ensures Agrees(w, walk, n) <==> !SouthDiagonal(o, n) || AlikeAside(walk, o, n)
  {
    if Agrees(w, walk, n) {
      forall c | 0 <= c < SIZE ensures Alike(walk, o, n, 0, c) && Alike(walk, o, n, SIZE - 1, c) {
        assert Inside(0, c) && Inside(SIZE - 1, c);
      }
    } else if !SouthDiagonal(o, n) || AlikeAside(walk, o, n) {
      forall r, c | Inside(r, c) && !Centre(r, c) ensures w[r][c] == walk(Tile(n, r, c, 0)) {
        if Skew(o, n, r, c) != 0 {
          assert if r == 0 then Alike(walk, o, n, 0, c) else Alike(walk, o, n, SIZE - 1, c);
        }
      }
    }
  }
}
