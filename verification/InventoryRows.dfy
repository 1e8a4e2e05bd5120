/** The rows in which a player's things are kept: each item with the number of what holds it. */
module InventoryRows {

  /** An item with its contents, front first. `value` is its type, count and attributes. */
  datatype Tree<T> = Tree(value: T, container: bool, children: seq<Tree<T>>)

  /** `pid` is a slot, a depot, or the `sid` of the container around the item. */
  datatype Row<T> = Row(pid: nat, sid: nat, value: T, container: bool)

  /** A slot or depot with one of the items in it. */
  datatype Block<T> = Block(pid: nat, tree: Tree<T>)

  const FIRST_SID := 101
  const FIRST_SLOT := 1
  const LAST_SLOT := 10
  const DEPOTS := 100

  ghost predicate Proper<T(!new)>(t: Tree<T>)
    decreases t
  {
    (t.children != [] ==> t.container) && AllProper(t.children)
  }

  ghost predicate AllProper<T(!new)>(ts: seq<Tree<T>>)
    decreases ts
  {
    forall i :: 0 <= i < |ts| ==> Proper(ts[i])
  }

  ghost function Size<T>(t: Tree<T>): nat
    decreases t, 0
  {
    1 + Sizes(t.children)
  }

  ghost function Sizes<T>(ts: seq<Tree<T>>): nat
    decreases ts, 1
  {
    if ts == [] then 0 else Sizes(ts[..|ts| - 1]) + Size(ts[|ts| - 1])
  }

  /** The trees whose rows name `pid` as what holds them, in row order. */
  ghost function KidTrees<T>(rows: seq<Row<T>>, trees: seq<Tree<T>>, pid: nat): (r: seq<Tree<T>>)
    requires |rows| == |trees|
  {
    if rows == [] then []
    else
      var n := |rows| - 1;
      KidTrees(rows[..n], trees[..n], pid) + (if rows[n].pid == pid then [trees[n]] else [])
  }

  ghost function KidSids<T>(rows: seq<Row<T>>, pid: nat): seq<nat> {
    if rows == [] then [] else (if rows[0].pid == pid then [rows[0].sid] else []) + KidSids(rows[1..], pid)
  }

  ghost function RootTrees<T>(blocks: seq<Block<T>>, pid: nat): seq<Tree<T>> {
    if blocks == [] then []
    else
      var n := |blocks| - 1;
      RootTrees(blocks[..n], pid) + (if blocks[n].pid == pid then [blocks[n].tree] else [])
  }

  // ------------------------------------------------------------------ saving

  /** Row `k` is that of tree `k`, numbered from 101 on, and below what holds it. */
  ghost predicate RowOk<T>(rows: seq<Row<T>>, trees: seq<Tree<T>>, k: nat)
    requires k < |rows| == |trees|
  {
    rows[k].sid == FIRST_SID + k && rows[k].value == trees[k].value && rows[k].container == trees[k].container
    && rows[k].pid < rows[k].sid
  }

  ghost predicate RowsOk<T>(rows: seq<Row<T>>, trees: seq<Tree<T>>) {
    |rows| == |trees| && forall k :: 0 <= k < |rows| ==> RowOk(rows, trees, k)
  }

  /** The rows are those of the blocks: what is under each row are the children of its tree. */
  ghost predicate Flattened<T(!new)>(blocks: seq<Block<T>>, rows: seq<Row<T>>, trees: seq<Tree<T>>) {
    && RowsOk(rows, trees) && AllProper(trees)
    && (forall k :: 0 <= k < |rows| ==> KidTrees(rows, trees, FIRST_SID + k) == trees[k].children)
    && forall pid :: 0 <= pid < FIRST_SID ==> KidTrees(rows, trees, pid) == RootTrees(blocks, pid)
  }

  /** Breadth first: rows further down belong to later containers. */
  ghost predicate BreadthFirst<T>(rows: seq<Row<T>>, roots: nat) {
    forall j, k :: roots <= j <= k < |rows| ==> FIRST_SID <= rows[j].pid <= rows[k].pid
  }

  lemma {:induction false} KidsOfSnoc<T>(rows: seq<Row<T>>, trees: seq<Tree<T>>, row: Row<T>, tree: Tree<T>, pid: nat)
    requires |rows| == |trees|
    ensures KidTrees(rows + [row], trees + [tree], pid)
            == KidTrees(rows, trees, pid) + (if row.pid == pid then [tree] else [])
  {
    assert (rows + [row])[..|rows|] == rows && (trees + [tree])[..|trees|] == trees;
  }

  /** Nothing names a number that no row has yet. */
  lemma {:induction false} NoKidsYet<T>(rows: seq<Row<T>>, trees: seq<Tree<T>>, pid: nat)
    requires |rows| == |trees| && forall k :: 0 <= k < |rows| ==> rows[k].pid < pid
    ensures KidTrees(rows, trees, pid) == []
  {
    if rows != [] { NoKidsYet(rows[..|rows| - 1], trees[..|rows| - 1], pid); }
  }

  /** A container whose contents are still to be written, with its number. */
  datatype Entry<T> = Entry(container: Tree<T>, sid: nat)

  /** The queue holds every row whose item is a container, in order. */
  ghost predicate QueueOk<T>(trees: seq<Tree<T>>, containers: seq<Entry<T>>) {
    && (forall i, j :: 0 <= i < j < |containers| ==> Earlier(containers, i, j))
    && (forall i :: 0 <= i < |containers| ==> EntryOk(trees, containers[i]))
    && forall k :: 0 <= k < |trees| ==> Queued(trees, containers, k)
  }

  ghost predicate Earlier<T>(containers: seq<Entry<T>>, i: nat, j: nat)
    requires i < j < |containers|
  {
    containers[i].sid < containers[j].sid
  }

  ghost predicate Queued<T>(trees: seq<Tree<T>>, containers: seq<Entry<T>>, k: nat)
    requires k < |trees|
  {
    trees[k].container ==> Entry(trees[k], FIRST_SID + k) in containers
  }

  ghost predicate EntryOk<T>(trees: seq<Tree<T>>, e: Entry<T>) {
    FIRST_SID <= e.sid < FIRST_SID + |trees| && e.container == trees[e.sid - FIRST_SID] && e.container.container
  }

  /** How much is written under row `k`: everything of the rows before `current`, and `done` of
      the children of row `current`. */
  ghost predicate KidsOk<T>(rows: seq<Row<T>>, trees: seq<Tree<T>>, k: nat, current: nat, done: nat)
    requires k < |rows| == |trees|
  {
    var kids := KidTrees(rows, trees, FIRST_SID + k);
    if k < current then kids == trees[k].children
    else if k == current && done <= |trees[k].children| then kids == trees[k].children[..done]
    else kids == []
  }

  ghost predicate Partly<T(!new)>(blocks: seq<Block<T>>, rows: seq<Row<T>>, trees: seq<Tree<T>>, current: nat,
                                  done: nat) {
    && RowsOk(rows, trees) && AllProper(trees)
    && (forall k :: 0 <= k < |rows| ==> KidsOk(rows, trees, k, current, done))
    && forall pid :: 0 <= pid < FIRST_SID ==> KidTrees(rows, trees, pid) == RootTrees(blocks, pid)
  }

  /** The row of one more block. */
  lemma {:induction false} BlockAdded<T(!new)>(blocks: seq<Block<T>>, rows: seq<Row<T>>, trees: seq<Tree<T>>,
                                               block: Block<T>,
                                        blocks': seq<Block<T>>, rows': seq<Row<T>>, trees': seq<Tree<T>>)
    requires Partly(blocks, rows, trees, 0, 0) && Proper(block.tree) && block.pid < FIRST_SID
    requires rows' == rows + [Row(block.pid, FIRST_SID + |rows|, block.tree.value, block.tree.container)]
    requires blocks' == blocks + [block] && trees' == trees + [block.tree]
    ensures Partly(blocks', rows', trees', 0, 0)
  {
    var row := rows'[|rows|];
    RowsGrow(rows, trees, row, block.tree);
    forall k | 0 <= k < |rows'| ensures KidsOk(rows', trees', k, 0, 0) {
      KidsOfSnoc(rows, trees, row, block.tree, FIRST_SID + k);
      if k < |rows| { assert KidsOk(rows, trees, k, 0, 0); } else { NoKidsOfLast(rows, trees); }
    }
    forall pid | 0 <= pid < FIRST_SID ensures KidTrees(rows', trees', pid) == RootTrees(blocks', pid) {
      KidsOfSnoc(rows, trees, row, block.tree, pid);
      assert blocks'[..|blocks|] == blocks;
    }
  }

  lemma {:induction false} NoKidsOfLast<T>(rows: seq<Row<T>>, trees: seq<Tree<T>>)
    requires RowsOk(rows, trees)
    ensures KidTrees(rows, trees, FIRST_SID + |rows|) == []
  {
    forall k | 0 <= k < |rows| ensures rows[k].pid < FIRST_SID + |rows| { assert RowOk(rows, trees, k); }
    NoKidsYet(rows, trees, FIRST_SID + |rows|);
  }

  lemma {:induction false} RowsGrow<T>(rows: seq<Row<T>>, trees: seq<Tree<T>>, row: Row<T>, tree: Tree<T>)
    requires RowsOk(rows, trees) && row.sid == FIRST_SID + |rows| && row.pid < row.sid
    requires row.value == tree.value && row.container == tree.container
    ensures RowsOk(rows + [row], trees + [tree])
  {
    forall k | 0 <= k < |rows| + 1 ensures RowOk(rows + [row], trees + [tree], k) {
      if k < |rows| { assert RowOk(rows, trees, k); }
    }
  }

  lemma {:induction false} ProperChild<T(!new)>(ts: seq<Tree<T>>, i: nat)
    requires AllProper(ts) && i < |ts|
    ensures Proper(ts[i])
  {
  }

  lemma {:induction false} ChildCounted<T>(rows: seq<Row<T>>, trees: seq<Tree<T>>, k: nat, current: nat, done: nat,
                                           row: Row<T>, child: Tree<T>)
    requires RowsOk(rows, trees) && k <= |rows| && (k < |rows| ==> KidsOk(rows, trees, k, current, done))
    requires current < |trees| && done < |trees[current].children| && child == trees[current].children[done]
    requires row.pid == FIRST_SID + current
    ensures KidsOk(rows + [row], trees + [child], k, current, done + 1)
  {
    KidsOfSnoc(rows, trees, row, child, FIRST_SID + k);
    if k == |rows| { NoKidsOfLast(rows, trees); }
  }

  /** The row of one more child of the current container. */
  lemma {:induction false} ChildAdded<T(!new)>(blocks: seq<Block<T>>, rows: seq<Row<T>>, trees: seq<Tree<T>>,
                                               current: nat, done: nat,
                                        child: Tree<T>, rows': seq<Row<T>>, trees': seq<Tree<T>>)
    requires Partly(blocks, rows, trees, current, done) && current < |trees| && done < |trees[current].children|
    requires child == trees[current].children[done] && trees' == trees + [child]
    requires rows' == rows + [Row(FIRST_SID + current, FIRST_SID + |rows|, child.value, child.container)]
    ensures Partly(blocks, rows', trees', current, done + 1)
  {
    var row := rows'[|rows|];
    assert Proper(trees[current]);
    ProperChild(trees[current].children, done);
    RowsGrow(rows, trees, row, child);
    var next := done + 1;
    forall k | 0 <= k < |rows'| ensures KidsOk(rows', trees', k, current, next) {
      assert k < |rows| ==> KidsOk(rows, trees, k, current, done);
      ChildCounted(rows, trees, k, current, done, row, child);
    }
    forall pid | 0 <= pid < FIRST_SID ensures KidTrees(rows', trees', pid) == RootTrees(blocks, pid) {
      KidsOfSnoc(rows, trees, row, child, pid);
    }
  }

  /** A container is finished, and none lies between it and the next. */
  lemma {:induction false} Advance<T(!new)>(blocks: seq<Block<T>>, rows: seq<Row<T>>, trees: seq<Tree<T>>, current: nat,
                                            done: nat, next: nat)
    requires Partly(blocks, rows, trees, current, done)
    requires current < next <= |rows| || (current == next && done == 0)
    requires current < next ==> (done == |trees[current].children| || !trees[current].container)
    requires forall k :: current < k < next ==> !trees[k].container
    ensures Partly(blocks, rows, trees, next, 0)
  {
    forall k | 0 <= k < |rows| ensures KidsOk(rows, trees, k, next, 0) {
      assert KidsOk(rows, trees, k, current, done) && Proper(trees[k]);
    }
  }

  lemma {:induction false} QueueGrows<T>(trees: seq<Tree<T>>, containers: seq<Entry<T>>, tree: Tree<T>,
                                         trees': seq<Tree<T>>, queue: seq<Entry<T>>)
    requires QueueOk(trees, containers) && trees' == trees + [tree]
    requires queue == if tree.container then containers + [Entry(tree, FIRST_SID + |trees|)] else containers
    ensures QueueOk(trees', queue)
  {
    var e := Entry(tree, FIRST_SID + |trees|);
    forall i | 0 <= i < |queue| ensures EntryOk(trees', queue[i]) {
      if i < |containers| { assert EntryOk(trees, containers[i]); }
    }
    forall k | 0 <= k < |trees'| ensures Queued(trees', queue, k) {
      if k < |trees| { assert Queued(trees, containers, k); }
      else if tree.container { assert queue[|containers|] == e; }
    }
    forall i, j | 0 <= i < j < |queue| ensures Earlier(queue, i, j) {
      if j < |containers| { assert Earlier(containers, i, j); } else { assert EntryOk(trees, containers[i]); }
    }
  }

  /** Between neighbours of the queue there is no container. */
  lemma {:induction false} NoneBetween<T>(trees: seq<Tree<T>>, containers: seq<Entry<T>>, i: nat, low: int, high: nat)
    requires QueueOk(trees, containers) && i <= |containers| && high <= |trees|
    requires low == (if i == 0 then -1 else containers[i - 1].sid - FIRST_SID)
    requires high == if i == |containers| then |trees| else containers[i].sid - FIRST_SID
    ensures forall k :: low < k < high ==> !trees[k].container
  {
    forall j | 0 <= j < |containers|
      ensures containers[j].sid - FIRST_SID <= low || high <= containers[j].sid - FIRST_SID
    {
      if j < i {
        assert j < i - 1 ==> Earlier(containers, j, i - 1);
      } else {
        assert i < j ==> Earlier(containers, i, j);
      }
    }
    forall k | low < k < high ensures !trees[k].container {
      assert Queued(trees, containers, k);
    }
  }

  ghost function QueueSize<T>(es: seq<Entry<T>>): nat {
    if es == [] then 0 else QueueSize(es[..|es| - 1]) + Size(es[|es| - 1].container)
  }

  lemma {:induction false} QueueHead<T>(es: seq<Entry<T>>)
    requires es != []
    ensures QueueSize(es) == Size(es[0].container) + QueueSize(es[1..])
  {
    if |es| > 1 {
      QueueHead(es[..|es| - 1]);
      assert es[..|es| - 1][1..] == es[1..][..|es| - 2];
    } else {
      assert es[..0] == [] && es[1..] == [];
    }
  }

  /** The row of container `i`, or the end of the rows. */
  ghost function Place<T>(trees: seq<Tree<T>>, containers: seq<Entry<T>>, i: nat): nat
    requires QueueOk(trees, containers) && i <= |containers|
  {
    if i == |containers| then |trees| else assert EntryOk(trees, containers[i]); containers[i].sid - FIRST_SID
  }

  /** The queue waits for no more than the children so far. */
  lemma {:induction false} QueueWaits<T>(containers: seq<Entry<T>>, queue: seq<Entry<T>>, i: nat, item: Tree<T>,
                                         children: seq<Tree<T>>, m: nat, sid: nat)
    requires i <= |containers| && m < |children| && item == children[m]
    requires queue == if item.container then containers + [Entry(item, sid)] else containers
    ensures QueueSize(queue[i..]) + Sizes(children[..m]) <= QueueSize(containers[i..]) + Sizes(children[..m + 1])
  {
    assert children[..m + 1][..m] == children[..m];
    if queue != containers {
      assert queue[i..][..|queue| - i - 1] == containers[i..];
    }
  }

  /** Everything the writing of one more child keeps. */
  lemma {:induction false} ChildStep<T(!new)>(blocks: seq<Block<T>>, rows: seq<Row<T>>, trees: seq<Tree<T>>,
                                              containers: seq<Entry<T>>, current: nat, m: nat,
                                       item: Tree<T>, rows': seq<Row<T>>, trees': seq<Tree<T>>,
                                       containers': seq<Entry<T>>)
    requires Partly(blocks, rows, trees, current, m) && QueueOk(trees, containers)
    requires current < |trees| && m < |trees[current].children| && item == trees[current].children[m]
    requires rows' == rows + [Row(FIRST_SID + current, FIRST_SID + |rows|, item.value, item.container)]
    requires trees' == trees + [item]
    requires containers' == if item.container then containers + [Entry(item, FIRST_SID + |trees|)] else containers
    ensures Partly(blocks, rows', trees', current, m + 1) && QueueOk(trees', containers')
    ensures trees'[current] == trees[current] && containers <= containers'
  {
    ChildAdded(blocks, rows, trees, current, m, item, rows', trees');
    QueueGrows(trees, containers, item, trees', containers');
  }

  /** All children of container `i` are written. */
  lemma {:induction false} ContainerDone<T(!new)>(blocks: seq<Block<T>>, rows: seq<Row<T>>, trees: seq<Tree<T>>,
                                                  containers: seq<Entry<T>>, i: nat, current: nat)
    requires QueueOk(trees, containers) && i < |containers| && current == Place(trees, containers, i)
    requires current < |trees| && Partly(blocks, rows, trees, current, |trees[current].children|)
    ensures Partly(blocks, rows, trees, Place(trees, containers, i + 1), 0)
  {
    var next := Place(trees, containers, i + 1);
    assert i + 1 < |containers| ==> Earlier(containers, i, i + 1);
    NoneBetween(trees, containers, i + 1, current, next);
    Advance(blocks, rows, trees, current, |trees[current].children|, next);
  }

  /** Row and place of container `i`. */
  lemma {:induction false} PlaceOf<T>(trees: seq<Tree<T>>, containers: seq<Entry<T>>, i: nat)
    requires QueueOk(trees, containers) && i < |containers|
    ensures var p := Place(trees, containers, i);
            p < |trees| && trees[p] == containers[i].container && containers[i].sid == FIRST_SID + p
    ensures QueueSize(containers[i..]) == 1 + Sizes(containers[i].container.children) + QueueSize(containers[i + 1..])
  {
    assert EntryOk(trees, containers[i]);
    QueueHead(containers[i..]);
    assert containers[i..][1..] == containers[i + 1..];
  }

  /** What was written before stands first, and the new rows lie under `pid`. */
  ghost predicate Extends<T>(rows: seq<Row<T>>, trees: seq<Tree<T>>, containers: seq<Entry<T>>, rows': seq<Row<T>>,
                             trees': seq<Tree<T>>, containers': seq<Entry<T>>, pid: nat) {
    && rows <= rows' && trees <= trees' && containers <= containers'
    && forall j :: |rows| <= j < |rows'| ==> rows'[j].pid == pid
  }

  lemma {:induction false} ExtendsMore<T>(rows0: seq<Row<T>>, trees0: seq<Tree<T>>, containers0: seq<Entry<T>>,
                                          rows: seq<Row<T>>, trees: seq<Tree<T>>, containers: seq<Entry<T>>,
                                          rows': seq<Row<T>>, trees': seq<Tree<T>>, containers': seq<Entry<T>>,
                                          pid: nat)
    requires Extends(rows0, trees0, containers0, rows, trees, containers, pid)
    requires Extends(rows, trees, containers, rows', trees', containers', pid)
    ensures Extends(rows0, trees0, containers0, rows', trees', containers', pid)
  {
  }

  /** The row of the next child. */
  method SaveChild<T(!new)>(ghost blocks: seq<Block<T>>, rows0: seq<Row<T>>, ghost trees0: seq<Tree<T>>,
                            containers0: seq<Entry<T>>, runningId0: nat, parentId: nat, item: Tree<T>,
                            ghost current: nat,
                            ghost m: nat)
    returns (rows: seq<Row<T>>, ghost trees: seq<Tree<T>>, containers: seq<Entry<T>>, runningId: nat)
    requires Partly(blocks, rows0, trees0, current, m) && QueueOk(trees0, containers0)
    requires current < |trees0| && m < |trees0[current].children| && item == trees0[current].children[m]
    requires parentId == FIRST_SID + current && runningId0 == FIRST_SID - 1 + |rows0|
    ensures runningId == runningId0 + 1
    ensures |rows| == |rows0| + 1 && current < |trees| && trees[current].children == trees0[current].children
    ensures Extends(rows0, trees0, containers0, rows, trees, containers, parentId)
    ensures containers == if item.container then containers0 + [Entry(item, runningId)] else containers0
    ensures Partly(blocks, rows, trees, current, m + 1) && QueueOk(trees, containers)
  {
    runningId := runningId0 + 1;
    rows := rows0 + [Row(parentId, runningId, item.value, item.container)];
    trees, containers := trees0 + [item], containers0;
    if item.container { containers := containers0 + [Entry(item, runningId)]; }
    ChildStep(blocks, rows0, trees0, containers0, current, m, item, rows, trees, containers);
  }

  /** The contents of container `i` of the queue, front first. */
  method SaveContents<T(!new)>(ghost blocks: seq<Block<T>>, rows0: seq<Row<T>>, ghost trees0: seq<Tree<T>>,
                               containers0: seq<Entry<T>>, runningId0: nat, i: nat)
    returns (rows: seq<Row<T>>, ghost trees: seq<Tree<T>>, containers: seq<Entry<T>>, runningId: nat)
    requires i < |containers0| && QueueOk(trees0, containers0) && runningId0 == FIRST_SID - 1 + |rows0|
    requires Partly(blocks, rows0, trees0, Place(trees0, containers0, i), 0)
    ensures Extends(rows0, trees0, containers0, rows, trees, containers, containers0[i].sid)
    ensures runningId == FIRST_SID - 1 + |rows|
    ensures QueueOk(trees, containers) && Partly(blocks, rows, trees, Place(trees, containers, i + 1), 0)
    ensures QueueSize(containers[i + 1..]) < QueueSize(containers0[i..])
  {
    rows, trees, containers, runningId := rows0, trees0, containers0, runningId0;
    ghost var current := Place(trees, containers, i);
    PlaceOf(trees, containers, i);
    var parentId, children := containers[i].sid, containers[i].container.children;
    ghost var waiting := QueueSize(containers[i + 1..]);
    var m := 0;
    while m < |children|
      invariant 0 <= m <= |children| && current < |trees| && trees[current].children == children
      invariant Extends(rows0, trees0, containers0, rows, trees, containers, parentId)
      invariant runningId == FIRST_SID - 1 + |rows|
      invariant QueueOk(trees, containers) && Partly(blocks, rows, trees, current, m)
      invariant QueueSize(containers[i + 1..]) <= waiting + Sizes(children[..m])
    {
      ghost var r, t, c := rows, trees, containers;
      rows, trees, containers, runningId :=
          SaveChild(blocks, rows, trees, containers, runningId, parentId, children[m], current, m);
      QueueWaits(c, containers, i + 1, children[m], children, m, runningId);
      ExtendsMore(rows0, trees0, containers0, r, t, c, rows, trees, containers, parentId);
      m := m + 1;
    }
    assert children[..m] == children;
    ContainerDone(blocks, rows, trees, containers, i, current);
  }

  ghost predicate AllUpTo<T>(rows: seq<Row<T>>, roots: nat, sid: nat) {
    forall j :: roots <= j < |rows| ==> rows[j].pid <= sid
  }

  lemma {:induction false} StillBreadthFirst<T>(rows: seq<Row<T>>, rows': seq<Row<T>>, roots: nat, sid: nat)
    requires BreadthFirst(rows, roots) && AllUpTo(rows, roots, sid) && roots <= |rows| && FIRST_SID <= sid
    requires rows <= rows' && forall j :: |rows| <= j < |rows'| ==> rows'[j].pid == sid
    ensures BreadthFirst(rows', roots) && forall k :: sid <= k ==> AllUpTo(rows', roots, k)
  {
    forall j, k | roots <= j <= k < |rows'| ensures FIRST_SID <= rows'[j].pid <= rows'[k].pid {
      if j < |rows| {
        assert rows'[j] == rows[j] && FIRST_SID <= rows[j].pid <= rows[j].pid;
        if k < |rows| { assert rows'[k] == rows[k]; }
      }
    }
    forall k | sid <= k ensures AllUpTo(rows', roots, k) {
      forall j | roots <= j < |rows'| ensures rows'[j].pid <= k {
        if j < |rows| { assert rows'[j] == rows[j]; }
      }
    }
  }

  lemma {:induction false} Finished<T(!new)>(blocks: seq<Block<T>>, rows: seq<Row<T>>, trees: seq<Tree<T>>)
    requires Partly(blocks, rows, trees, |rows|, 0)
    ensures Flattened(blocks, rows, trees)
  {
    forall k | 0 <= k < |rows| ensures KidTrees(rows, trees, FIRST_SID + k) == trees[k].children {
      assert KidsOk(rows, trees, k, |rows|, 0);
    }
  }

  /** The first rows are those of the blocks. */
  ghost predicate RootsFirst<T>(blocks: seq<Block<T>>, rows: seq<Row<T>>, trees: seq<Tree<T>>, i: nat) {
    i <= |blocks| && i <= |rows| && i <= |trees|
    && forall j :: 0 <= j < i ==> rows[j].pid == blocks[j].pid && trees[j] == blocks[j].tree
  }

  lemma {:induction false} BlockStep<T(!new)>(blocks: seq<Block<T>>, i: nat, rows: seq<Row<T>>, trees: seq<Tree<T>>,
                                              containers: seq<Entry<T>>,
                                              rows': seq<Row<T>>, trees': seq<Tree<T>>, containers': seq<Entry<T>>)
    requires i < |blocks| && blocks[i].pid < FIRST_SID && Proper(blocks[i].tree) && |rows| == i
    requires Partly(blocks[..i], rows, trees, 0, 0) && QueueOk(trees, containers) && RootsFirst(blocks, rows, trees, i)
    requires rows' == rows + [Row(blocks[i].pid, FIRST_SID + i, blocks[i].tree.value, blocks[i].tree.container)]
    requires trees' == trees + [blocks[i].tree]
    requires containers' == if blocks[i].tree.container then containers + [Entry(blocks[i].tree, FIRST_SID + i)]
                            else containers
    ensures Partly(blocks[..i + 1], rows', trees', 0, 0) && QueueOk(trees', containers')
    ensures RootsFirst(blocks, rows', trees', i + 1)
  {
    BlockAdded(blocks[..i], rows, trees, blocks[i], blocks[..i + 1], rows', trees');
    QueueGrows(trees, containers, blocks[i].tree, trees', containers');
  }

  /** The rows of the slots or depots themselves. */
  method SaveBlocks<T(!new)>(blocks: seq<Block<T>>)
    returns (rows: seq<Row<T>>, ghost trees: seq<Tree<T>>, containers: seq<Entry<T>>, runningId: nat)
    requires forall i :: 0 <= i < |blocks| ==> blocks[i].pid < FIRST_SID && Proper(blocks[i].tree)
    ensures |rows| == |blocks| && runningId == FIRST_SID - 1 + |rows|
    ensures Partly(blocks, rows, trees, 0, 0) && QueueOk(trees, containers) && RootsFirst(blocks, rows, trees, |blocks|)
  {
    rows, trees, containers := [], [], [];
    runningId := FIRST_SID - 1;
    var i := 0;
    while i < |blocks|
      invariant 0 <= i <= |blocks| && |rows| == i && runningId == FIRST_SID - 1 + i
      invariant Partly(blocks[..i], rows, trees, 0, 0) && QueueOk(trees, containers)
      invariant RootsFirst(blocks, rows, trees, i)
    {
      ghost var r, t, c := rows, trees, containers;
      var item := blocks[i].tree;
      runningId := runningId + 1;
      rows := rows + [Row(blocks[i].pid, runningId, item.value, item.container)];
      trees := trees + [item];
      if item.container { containers := containers + [Entry(item, runningId)]; }
      BlockStep(blocks, i, r, t, c, rows, trees, containers);
      i := i + 1;
    }
    assert blocks[..i] == blocks;
  }

  /** Numbers the items from 101 on: those of the blocks first, then the contents of each container
      in the order in which the containers were numbered. */
  method SaveItems<T(!new)>(blocks: seq<Block<T>>) returns (rows: seq<Row<T>>, ghost trees: seq<Tree<T>>)
    requires forall i :: 0 <= i < |blocks| ==> blocks[i].pid < FIRST_SID && Proper(blocks[i].tree)
    ensures Flattened(blocks, rows, trees) && BreadthFirst(rows, |blocks|)
    ensures |blocks| <= |rows|
    ensures forall i :: 0 <= i < |blocks| ==> rows[i].pid == blocks[i].pid && trees[i] == blocks[i].tree
  {
    var containers, runningId;
    rows, trees, containers, runningId := SaveBlocks(blocks);
    var i := 0;
    ghost var next := Place(trees, containers, 0);
    NoneBetween(trees, containers, 0, -1, next);
    Advance(blocks, rows, trees, 0, 0, next);
    while i < |containers|
      invariant 0 <= i <= |containers| && runningId == FIRST_SID - 1 + |rows|
      invariant QueueOk(trees, containers) && Partly(blocks, rows, trees, Place(trees, containers, i), 0)
      invariant |blocks| <= |rows| && BreadthFirst(rows, |blocks|)
      invariant i < |containers| ==> AllUpTo(rows, |blocks|, containers[i].sid)
      invariant forall j :: 0 <= j < |blocks| ==> rows[j].pid == blocks[j].pid && trees[j] == blocks[j].tree
      decreases QueueSize(containers[i..])
    {
      ghost var r, sid := rows, containers[i].sid;
      assert EntryOk(trees, containers[i]);
      rows, trees, containers, runningId := SaveContents(blocks, rows, trees, containers, runningId, i);
      StillBreadthFirst(r, rows, |blocks|, sid);
      assert i + 1 < |containers| ==> Earlier(containers, i, i + 1);
      i := i + 1;
    }
    Finished(blocks, rows, trees);
  }


  // ----------------------------------------------------------------- loading

  function At(m: map<nat, seq<nat>>, pid: nat): seq<nat> {
    if pid in m then m[pid] else []
  }

  /** The rows of the map, by number. */
  ghost predicate Listed<T>(items: map<nat, Row<T>>, rows: seq<Row<T>>) {
    && (forall j, k :: 0 <= j < k < |rows| ==> rows[j].sid < rows[k].sid)
    && (forall k :: 0 <= k < |rows| ==> rows[k].sid in items && items[rows[k].sid] == rows[k])
    && forall sid :: sid in items ==> items[sid].sid == sid && items[sid] in rows
  }

  /** What may hold things directly: the ten slots of a player, or the depots. */
  predicate IsRoot(slots: bool, pid: nat) {
    if slots then FIRST_SLOT <= pid <= LAST_SLOT else pid < DEPOTS
  }

  predicate IsContainer<T>(items: map<nat, Row<T>>, pid: nat) {
    pid in items && items[pid].container
  }

  /** A slot keeps the first thing put there, a depot takes everything, newest in front. */
  ghost function Held(slots: bool, sids: seq<nat>): seq<nat> {
    if slots && sids != [] then [sids[|sids| - 1]] else sids
  }

  /** What is in the roots and the containers, when all rows from `k` on have been put back. */
  ghost predicate Rebuilt<T>(slots: bool, items: map<nat, Row<T>>, roots: map<nat, seq<nat>>,
                             contents: map<nat, seq<nat>>,
                             rows: seq<Row<T>>) {
    && (forall pid: nat :: RootRight(slots, roots, rows, pid))
    && forall pid: nat :: ContentRight(slots, items, contents, rows, pid)
  }

  ghost predicate RootRight<T>(slots: bool, roots: map<nat, seq<nat>>, rows: seq<Row<T>>, pid: nat) {
    At(roots, pid) == if IsRoot(slots, pid) then Held(slots, KidSids(rows, pid)) else []
  }

  ghost predicate ContentRight<T>(slots: bool, items: map<nat, Row<T>>, contents: map<nat, seq<nat>>, rows: seq<Row<T>>,
                                  pid: nat) {
    At(contents, pid) == if !IsRoot(slots, pid) && IsContainer(items, pid) then KidSids(rows, pid) else []
  }

  function RootsWith<T>(slots: bool, roots: map<nat, seq<nat>>, row: Row<T>): map<nat, seq<nat>> {
    if IsRoot(slots, row.pid) && (!slots || At(roots, row.pid) == []) then roots[row.pid :=
        [row.sid] + At(roots, row.pid)]
    else roots
  }

  function ContentsWith<T>(slots: bool, items: map<nat, Row<T>>, contents: map<nat, seq<nat>>,
                           row: Row<T>): map<nat, seq<nat>>
  {
    if !IsRoot(slots, row.pid) && IsContainer(items, row.pid) then contents[row.pid :=
        [row.sid] + At(contents, row.pid)]
    else contents
  }

  lemma {:induction false} RootStep<T>(slots: bool, roots: map<nat, seq<nat>>, rows: seq<Row<T>>, pid: nat)
    requires rows != [] && RootRight(slots, roots, rows[1..], pid)
    ensures RootRight(slots, RootsWith(slots, roots, rows[0]), rows, pid)
  {
  }

  lemma {:induction false} ContentStep<T>(slots: bool, items: map<nat, Row<T>>, contents: map<nat, seq<nat>>,
                                          rows: seq<Row<T>>, pid: nat)
    requires rows != [] && ContentRight(slots, items, contents, rows[1..], pid)
    ensures ContentRight(slots, items, ContentsWith(slots, items, contents, rows[0]), rows, pid)
  {
  }

  /** Row `k - 1` is put back after all rows behind it. */
  lemma {:induction false} PutStep<T>(slots: bool, items: map<nat, Row<T>>, roots: map<nat, seq<nat>>,
                                      contents: map<nat, seq<nat>>, rows: seq<Row<T>>,
                                      k: nat, row: Row<T>, roots': map<nat, seq<nat>>, contents': map<nat, seq<nat>>)
    requires 0 < k <= |rows| && row == rows[k - 1] && Rebuilt(slots, items, roots, contents, rows[k..])
    requires roots' == RootsWith(slots, roots, row) && contents' == ContentsWith(slots, items, contents, row)
    ensures Rebuilt(slots, items, roots', contents', rows[k - 1..])
  {
    var now := rows[k - 1..];
    assert now[1..] == rows[k..];
    forall pid: nat ensures RootRight(slots, roots', now, pid) {
      assert RootRight(slots, roots, now[1..], pid);
      RootStep(slots, roots, now, pid);
    }
    forall pid: nat ensures ContentRight(slots, items, contents', now, pid) {
      assert ContentRight(slots, items, contents, now[1..], pid);
      ContentStep(slots, items, contents, now, pid);
    }
  }

  /** The map has a row for every number in `result` of which an item can be made, and the old ones. */
  ghost predicate Loaded<T>(before: map<nat, Row<T>>, result: seq<Row<T>>, creatable: T -> bool,
                            after: map<nat, Row<T>>) {
    && (forall row :: row in result && creatable(row.value) ==> row.sid in after)
    && (forall sid :: sid in before ==> sid in after)
    && forall sid :: sid in after ==>
         (after[sid].sid == sid && after[sid] in result && creatable(after[sid].value))
         || (sid in before && after[sid] == before[sid]
             && forall row :: row in result && creatable(row.value) ==> row.sid != sid)
  }

  /** In whatever order the rows are read, they are listed by their numbers. */
  lemma {:induction false} LoadedIsListed<T>(rows: seq<Row<T>>, trees: seq<Tree<T>>, result: seq<Row<T>>,
                                             creatable: T -> bool,
                                             items: map<nat, Row<T>>)
    requires RowsOk(rows, trees) && multiset(result) == multiset(rows)
    requires forall row :: row in rows ==> creatable(row.value)
    requires Loaded(map[], result, creatable, items)
    ensures Listed(items, rows)
  {
    forall row ensures row in result <==> row in rows {
      assert row in multiset(result) <==> row in multiset(rows);
    }
    forall j, k | 0 <= j < k < |rows| ensures rows[j].sid < rows[k].sid {
      assert RowOk(rows, trees, j) && RowOk(rows, trees, k);
    }
    forall k | 0 <= k < |rows| ensures rows[k].sid in items && items[rows[k].sid] == rows[k] {
      var row := items[rows[k].sid];
      var j :| 0 <= j < |rows| && rows[j] == row;
      assert RowOk(rows, trees, j) && RowOk(rows, trees, k);
    }
  }

  class Holder<T(!new)> {
    var itemMap: map<nat, Row<T>>
    var roots: map<nat, seq<nat>>
    var contents: map<nat, seq<nat>>

    constructor ()
      ensures itemMap == map[] && roots == map[] && contents == map[]
    {
      itemMap, roots, contents := map[], map[], map[];
    }

    /** Reads the rows in whatever order they come; a row of which no item can be made is left out. */
    method LoadItems(result: seq<Row<T>>, creatable: T -> bool)
      modifies this`itemMap
      ensures Loaded(old(itemMap), result, creatable, itemMap)
    {
      var i := 0;
      while i < |result|
        invariant 0 <= i <= |result| && Loaded(old(itemMap), result[..i], creatable, itemMap)
      {
        if creatable(result[i].value) {
          itemMap := itemMap[result[i].sid := result[i]];
        }
        assert result[..i + 1] == result[..i] + [result[i]];
        i := i + 1;
      }
      assert result[..i] == result;
    }

    /** An item goes into its slot if that is free, or in front of what its container holds. */
    method PutBack(slots: bool, row: Row<T>)
      modifies this`roots, this`contents
      ensures roots == RootsWith(slots, old(roots), row) && contents == ContentsWith(slots, itemMap, old(contents), row)
    {
      if IsRoot(slots, row.pid) {
        if !slots || At(roots, row.pid) == [] {
          roots := roots[row.pid := [row.sid] + At(roots, row.pid)];
        }
      } else if IsContainer(itemMap, row.pid) {
        contents := contents[row.pid := [row.sid] + At(contents, row.pid)];
      }
    }

    /** Puts every item where its row says, highest number first, each in front of the others. */
    method Rebuild(slots: bool, ghost rows: seq<Row<T>>)
      requires Listed(itemMap, rows) && roots == map[] && contents == map[]
      modifies this`roots, this`contents
      ensures Rebuilt(slots, itemMap, roots, contents, rows)
    {
      ghost var k := |rows|;
      var left := itemMap.Keys;
      AllLeft(itemMap, rows);
      NothingBack(slots, itemMap, rows);
      while left != {}
        invariant 0 <= k <= |rows| && Left(rows, k, left)
        invariant Rebuilt(slots, itemMap, roots, contents, rows[k..])
        decreases left
      {
        LastIsHighest(itemMap, rows, k, left);
        var sid := Highest(left, rows[k - 1].sid);
        left := left - {sid};
        ghost var r, c := roots, contents;
        PutBack(slots, itemMap[sid]);
        PutStep(slots, itemMap, r, c, rows, k, itemMap[sid], roots, contents);
        k := k - 1;
      }
      NoneLeft(rows, k, left);
    }
  }

  /** The map is gone through from its highest key down. */
  method Highest(left: set<nat>, ghost top: nat) returns (sid: nat)
    requires top in left && forall s :: s in left ==> s <= top
    ensures sid == top
  {
    sid :| sid in left && forall s :: s in left ==> s <= sid;
  }

  /** The numbers of the first `k` rows. */
  ghost predicate Left<T>(rows: seq<Row<T>>, k: nat, left: set<nat>)
    requires k <= |rows|
  {
    left == set j | 0 <= j < k :: rows[j].sid
  }

  lemma {:induction false} AllLeft<T>(items: map<nat, Row<T>>, rows: seq<Row<T>>)
    requires Listed(items, rows)
    ensures Left(rows, |rows|, items.Keys)
  {
    forall sid | sid in items ensures exists j :: 0 <= j < |rows| && rows[j].sid == sid {
      var j :| 0 <= j < |rows| && rows[j] == items[sid];
    }
  }

  lemma {:induction false} LeftHas<T>(rows: seq<Row<T>>, k: nat, left: set<nat>, j: nat)
    requires j < k <= |rows| && Left(rows, k, left)
    ensures rows[j].sid in left
  {
  }

  lemma {:induction false} NoneLeft<T>(rows: seq<Row<T>>, k: nat, left: set<nat>)
    requires k <= |rows| && Left(rows, k, left) && left == {}
    ensures rows[k..] == rows
  {
    if k > 0 { LeftHas(rows, k, left, 0); }
  }

  lemma {:induction false} NothingBack<T>(slots: bool, items: map<nat, Row<T>>, rows: seq<Row<T>>)
    ensures Rebuilt(slots, items, map[], map[], rows[|rows|..])
  {
    assert rows[|rows|..] == [];
  }

  lemma {:induction false} LastIsHighest<T>(items: map<nat, Row<T>>, rows: seq<Row<T>>, k: nat, left: set<nat>)
    requires k <= |rows| && Listed(items, rows) && Left(rows, k, left) && left != {}
    ensures k > 0 && rows[k - 1].sid in left && (forall s :: s in left ==> s <= rows[k - 1].sid)
    ensures items[rows[k - 1].sid] == rows[k - 1] && Left(rows, k - 1, left - {rows[k - 1].sid})
  {
  }

  // ----------------------------------------------------------- the round trip

  /** Everything is held by something with a lower number. */
  ghost predicate Downward<T>(items: map<nat, Row<T>>, contents: map<nat, seq<nat>>, bound: nat) {
    forall pid: nat, i: nat :: i < |At(contents, pid)| ==> KidOk(items, contents, bound, pid, i)
  }

  ghost predicate KidOk<T>(items: map<nat, Row<T>>, contents: map<nat, seq<nat>>, bound: nat, pid: nat, i: nat)
    requires i < |At(contents, pid)|
  {
    pid < At(contents, pid)[i] < bound && At(contents, pid)[i] in items
  }

  /** The tree that hangs under item `sid` after loading. */
  ghost function TreeOf<T>(items: map<nat, Row<T>>, contents: map<nat, seq<nat>>, bound: nat, sid: nat): Tree<T>
    requires Downward(items, contents, bound) && sid < bound && sid in items
    decreases bound - sid, 1, 0
  {
    Tree(items[sid].value, items[sid].container, ContentTrees(items, contents, bound, sid, |At(contents, sid)|))
  }

  ghost function ContentTrees<T>(items: map<nat, Row<T>>, contents: map<nat, seq<nat>>, bound: nat, sid: nat,
                                 n: nat): (r: seq<Tree<T>>)
    requires Downward(items, contents, bound) && n <= |At(contents, sid)| && sid < bound
    ensures |r| == n
    decreases bound - sid, 0, n
  {
    if n == 0 then []
    else
      assert KidOk(items, contents, bound, sid, n - 1);
      ContentTrees(items, contents, bound, sid, n - 1) + [TreeOf(items, contents, bound, At(contents, sid)[n - 1])]
  }

  ghost predicate InRows(n: nat, sids: seq<nat>) {
    forall i :: 0 <= i < |sids| ==> FIRST_SID <= sids[i] < FIRST_SID + n
  }

  ghost function Pick<T>(trees: seq<Tree<T>>, sids: seq<nat>): (r: seq<Tree<T>>)
    requires InRows(|trees|, sids)
    ensures |r| == |sids| && forall i :: 0 <= i < |r| ==> r[i] == trees[sids[i] - FIRST_SID]
  {
    seq(|sids|, i requires 0 <= i < |sids| => trees[sids[i] - FIRST_SID])
  }

  lemma {:induction false} KidSidsSnoc<T>(rows: seq<Row<T>>, row: Row<T>, pid: nat)
    ensures KidSids(rows + [row], pid) == KidSids(rows, pid) + (if row.pid == pid then [row.sid] else [])
  {
    if rows == [] {
      assert (rows + [row])[1..] == [];
    } else {
      KidSidsSnoc(rows[1..], row, pid);
      assert (rows + [row])[1..] == rows[1..] + [row];
    }
  }

  /** The numbers found by the loader are those of the trees that the writer put there. */
  /** The numbers under `pid` are those of rows behind it, and their trees the children written there. */
  ghost predicate KidsMatch<T>(rows: seq<Row<T>>, trees: seq<Tree<T>>, pid: nat, sids: seq<nat>)
    requires |rows| == |trees|
  {
    && InRows(|rows|, sids) && KidTrees(rows, trees, pid) == Pick(trees, sids)
    && forall i :: 0 <= i < |sids| ==> pid < sids[i]
  }

  lemma {:induction false} KidsMatchSnoc<T>(rows: seq<Row<T>>, trees: seq<Tree<T>>, pid: nat, sids: seq<nat>,
                                            row: Row<T>,
                                            tree: Tree<T>)
    requires |rows| == |trees| && KidsMatch(rows, trees, pid, sids) && row.sid == FIRST_SID + |rows|
              && row.pid < row.sid
    ensures KidsMatch(rows + [row], trees + [tree], pid, sids + (if row.pid == pid then [row.sid] else []))
  {
    KidsOfSnoc(rows, trees, row, tree, pid);
  }

  lemma {:induction false} RowsInit<T>(rows: seq<Row<T>>, trees: seq<Tree<T>>, n: nat)
    requires RowsOk(rows, trees) && |rows| == n + 1
    ensures RowsOk(rows[..n], trees[..n]) && RowOk(rows, trees, n)
    ensures rows[..n] + [rows[n]] == rows && trees[..n] + [trees[n]] == trees
  {
    forall k | 0 <= k < n ensures RowOk(rows[..n], trees[..n], k) { assert RowOk(rows, trees, k); }
  }

  lemma {:induction false} KidsAgree<T>(rows: seq<Row<T>>, trees: seq<Tree<T>>, pid: nat)
    requires RowsOk(rows, trees)
    ensures KidsMatch(rows, trees, pid, KidSids(rows, pid))
  {
    if rows != [] {
      var n := |rows| - 1;
      RowsInit(rows, trees, n);
      KidsAgree(rows[..n], trees[..n], pid);
      KidSidsSnoc(rows[..n], rows[n], pid);
      KidsMatchSnoc(rows[..n], trees[..n], pid, KidSids(rows[..n], pid), rows[n], trees[n]);
    }
  }

  /** The contents of item `k` are the rows of the children of its tree. */
  ghost predicate KidsBack<T>(trees: seq<Tree<T>>, items: map<nat, Row<T>>, contents: map<nat, seq<nat>>, k: nat)
    requires k < |trees|
  {
    && FIRST_SID + k in items && items[FIRST_SID + k].value == trees[k].value
        && items[FIRST_SID + k].container == trees[k].container
    && InRows(|trees|, At(contents, FIRST_SID + k))
    && Pick(trees, At(contents, FIRST_SID + k)) == trees[k].children
  }

  /** Every item is back under its number. */
  ghost predicate AllBack<T>(trees: seq<Tree<T>>, items: map<nat, Row<T>>, contents: map<nat, seq<nat>>) {
    && Downward(items, contents, FIRST_SID + |trees|)
    && forall k :: 0 <= k < |trees| ==> KidsBack(trees, items, contents, k)
  }

  lemma {:induction false} RowListed<T>(rows: seq<Row<T>>, trees: seq<Tree<T>>, items: map<nat, Row<T>>, k: nat)
    requires RowsOk(rows, trees) && Listed(items, rows) && k < |rows|
    ensures FIRST_SID + k in items && items[FIRST_SID + k] == rows[k] && RowOk(rows, trees, k)
  {
    assert RowOk(rows, trees, k);
  }

  lemma {:induction false} HeldDownward<T>(slots: bool, rows: seq<Row<T>>, trees: seq<Tree<T>>, items: map<nat, Row<T>>,
                                           roots: map<nat, seq<nat>>, contents: map<nat, seq<nat>>)
    requires RowsOk(rows, trees) && Listed(items, rows) && Rebuilt(slots, items, roots, contents, rows)
    ensures Downward(items, contents, FIRST_SID + |trees|)
  {
    var bound := FIRST_SID + |trees|;
    forall pid: nat, i: nat | i < |At(contents, pid)| ensures KidOk(items, contents, bound, pid, i) {
      KidBelow(slots, rows, trees, items, roots, contents, pid, i);
    }
  }

  lemma {:induction false} KidBelow<T>(slots: bool, rows: seq<Row<T>>, trees: seq<Tree<T>>, items: map<nat, Row<T>>,
                                       roots: map<nat, seq<nat>>, contents: map<nat, seq<nat>>, pid: nat, i: nat)
    requires RowsOk(rows, trees) && Listed(items, rows) && Rebuilt(slots, items, roots, contents, rows)
    requires i < |At(contents, pid)|
    ensures KidOk(items, contents, FIRST_SID + |trees|, pid, i)
  {
    HeldAre(slots, rows, items, roots, contents, pid);
    KidsAgree(rows, trees, pid);
    RowListed(rows, trees, items, At(contents, pid)[i] - FIRST_SID);
  }

  lemma {:induction false} HeldAre<T>(slots: bool, rows: seq<Row<T>>, items: map<nat, Row<T>>,
                                      roots: map<nat, seq<nat>>, contents: map<nat, seq<nat>>, pid: nat)
    requires Rebuilt(slots, items, roots, contents, rows)
    ensures At(contents, pid) == if !IsRoot(slots, pid) && IsContainer(items, pid) then KidSids(rows, pid) else []
    ensures At(roots, pid) == if IsRoot(slots, pid) then Held(slots, KidSids(rows, pid)) else []
  {
    assert RootRight(slots, roots, rows, pid) && ContentRight(slots, items, contents, rows, pid);
  }

  lemma {:induction false} KidsBackAt<T(!new)>(slots: bool, rows: seq<Row<T>>, trees: seq<Tree<T>>,
                                               items: map<nat, Row<T>>,
                                         roots: map<nat, seq<nat>>, contents: map<nat, seq<nat>>, k: nat, t: Tree<T>,
                                         sid: nat)
    requires RowsOk(rows, trees) && Listed(items, rows) && Rebuilt(slots, items, roots, contents, rows)
    requires k < |trees| && t == trees[k] && sid == FIRST_SID + k && Proper(t)
              && KidTrees(rows, trees, sid) == t.children
    ensures KidsBack(trees, items, contents, k)
  {
    RowListed(rows, trees, items, k);
    KidsAgree(rows, trees, sid);
    HeldAre(slots, rows, items, roots, contents, sid);
    if !t.container { assert |KidSids(rows, sid)| == |t.children| == 0; }
  }

  /** What is written and loaded again is all back. */
  lemma {:induction false} LoaderFinds<T(!new)>(slots: bool, blocks: seq<Block<T>>, rows: seq<Row<T>>,
                                                trees: seq<Tree<T>>,
                                         items: map<nat, Row<T>>, roots: map<nat, seq<nat>>,
                                         contents: map<nat, seq<nat>>)
    requires Flattened(blocks, rows, trees) && Listed(items, rows)
    requires Rebuilt(slots, items, roots, contents, rows)
    ensures AllBack(trees, items, contents)
  {
    HeldDownward(slots, rows, trees, items, roots, contents);
    forall k | 0 <= k < |trees| ensures KidsBack(trees, items, contents, k) {
      KidsBackAt(slots, rows, trees, items, roots, contents, k, trees[k], FIRST_SID + k);
    }
  }

  /** Under every number hangs the tree that was written there. */
  lemma {:induction false} TreeBack<T>(trees: seq<Tree<T>>, items: map<nat, Row<T>>, contents: map<nat, seq<nat>>,
                                       k: nat)
    requires AllBack(trees, items, contents) && k < |trees|
    ensures FIRST_SID + k in items && TreeOf(items, contents, FIRST_SID + |trees|, FIRST_SID + k) == trees[k]
    decreases |trees| - k, 1, 0
  {
    assert KidsBack(trees, items, contents, k);
    var sid, kids := FIRST_SID + k, At(contents, FIRST_SID + k);
    ContentsBack(trees, items, contents, k, sid, kids, Pick(trees, kids), |kids|);
    assert ContentTrees(items, contents, FIRST_SID + |trees|, sid, |kids|) == Pick(trees, kids);
  }

  lemma {:induction false} ContentsBack<T>(trees: seq<Tree<T>>, items: map<nat, Row<T>>, contents: map<nat, seq<nat>>,
                                           k: nat,
                                           sid: nat, kids: seq<nat>, picked: seq<Tree<T>>, n: nat)
    requires AllBack(trees, items, contents) && k < |trees| && sid == FIRST_SID + k && kids == At(contents, sid)
    requires n <= |kids| && InRows(|trees|, kids) && picked == Pick(trees, kids)
    ensures forall j :: 0 <= j < n ==> ContentTrees(items, contents, FIRST_SID + |trees|, sid, n)[j] == picked[j]
    decreases |trees| - k, 0, n
  {
    if n > 0 {
      assert KidOk(items, contents, FIRST_SID + |trees|, sid, n - 1);
      ContentsBack(trees, items, contents, k, sid, kids, picked, n - 1);
      TreeBack(trees, items, contents, kids[n - 1] - FIRST_SID);
    }
  }

  /** The trees under a list of numbers. */
  ghost predicate Hangs<T>(items: map<nat, Row<T>>, contents: map<nat, seq<nat>>, bound: nat, sids: seq<nat>,
                           trees: seq<Tree<T>>) {
    && Downward(items, contents, bound) && |sids| == |trees|
    && forall i :: 0 <= i < |sids| ==>
          sids[i] in items && sids[i] < bound && TreeOf(items, contents, bound, sids[i]) == trees[i]
  }

  ghost predicate OneEach<T>(blocks: seq<Block<T>>) {
    forall i, j :: 0 <= i < j < |blocks| ==> blocks[i].pid != blocks[j].pid
  }

  lemma {:induction false} OneRoot<T>(blocks: seq<Block<T>>, pid: nat)
    requires OneEach(blocks)
    ensures |RootTrees(blocks, pid)| <= 1
    ensures (RootTrees(blocks, pid) != [] ==> exists i :: 0 <= i < |blocks| && blocks[i].pid == pid)
  {
    if blocks != [] { OneRoot(blocks[..|blocks| - 1], pid); }
  }

  /** No number of an item is taken for a slot or a depot. */
  lemma {:induction false} NoCollision<T>(slots: bool, rows: seq<Row<T>>, trees: seq<Tree<T>>, items: map<nat, Row<T>>,
                                          sid: nat)
    requires RowsOk(rows, trees) && Listed(items, rows) && sid in items
    ensures !IsRoot(slots, sid)
  {
    var k :| 0 <= k < |rows| && rows[k] == items[sid];
    assert RowOk(rows, trees, k);
  }

  lemma {:induction false} RootsAre<T(!new)>(slots: bool, blocks: seq<Block<T>>, rows: seq<Row<T>>, trees: seq<Tree<T>>,
                                      items: map<nat, Row<T>>, roots: map<nat, seq<nat>>, contents: map<nat, seq<nat>>,
                                      pid: nat)
    requires Flattened(blocks, rows, trees) && Rebuilt(slots, items, roots, contents, rows)
    requires (slots ==> OneEach(blocks)) && IsRoot(slots, pid)
    ensures InRows(|trees|, At(roots, pid)) && Pick(trees, At(roots, pid)) == RootTrees(blocks, pid)
  {
    KidsAgree(rows, trees, pid);
    HeldAre(slots, rows, items, roots, contents, pid);
    assert KidTrees(rows, trees, pid) == RootTrees(blocks, pid);
    if slots { OneRoot(blocks, pid); }
    assert At(roots, pid) == KidSids(rows, pid);
  }

  lemma {:induction false} PickedHang<T>(trees: seq<Tree<T>>, items: map<nat, Row<T>>, contents: map<nat, seq<nat>>,
                                         sids: seq<nat>)
    requires AllBack(trees, items, contents) && InRows(|trees|, sids)
    ensures Hangs(items, contents, FIRST_SID + |trees|, sids, Pick(trees, sids))
  {
    forall i | 0 <= i < |sids|
      ensures sids[i] in items && TreeOf(items, contents, FIRST_SID + |trees|, sids[i]) == trees[sids[i] - FIRST_SID]
    {
      TreeBack(trees, items, contents, sids[i] - FIRST_SID);
    }
  }

  /** Rows written for items in slots, or in depots, and loaded again in any order give every slot or
      depot the same items, with the same contents in the same order at every depth; no number of an
      item is taken for a slot or a depot. Slots must be given at most one item each. */
  lemma {:induction false} RoundTrip<T(!new)>(slots: bool, blocks: seq<Block<T>>, rows: seq<Row<T>>,
                                              trees: seq<Tree<T>>,
                                       items: map<nat, Row<T>>, roots: map<nat, seq<nat>>,
                                       contents: map<nat, seq<nat>>, pid: nat)
    requires Flattened(blocks, rows, trees) && Listed(items, rows)
    requires Rebuilt(slots, items, roots, contents, rows) && (slots ==> OneEach(blocks)) && IsRoot(slots, pid)
    ensures Hangs(items, contents, FIRST_SID + |trees|, At(roots, pid), RootTrees(blocks, pid)) && pid !in items
  {
    LoaderFinds(slots, blocks, rows, trees, items, roots, contents);
    RootsAre(slots, blocks, rows, trees, items, roots, contents, pid);
    PickedHang(trees, items, contents, At(roots, pid));
    if pid in items { NoCollision(slots, rows, trees, items, pid); }
  }

  /** A slot or depot has its items back, and is no item's number. */
  ghost predicate IsBack<T(!new)>(holder: Holder<T>, bound: nat, blocks: seq<Block<T>>, pid: nat)
    reads holder
  {
    pid !in holder.itemMap
        && Hangs(holder.itemMap, holder.contents, bound, At(holder.roots, pid), RootTrees(blocks, pid))
  }

  /** Everything is saved, the rows come back in some order, and everything is loaded. */
  method SaveAndLoad<T(!new)>(slots: bool, blocks: seq<Block<T>>, reorder: seq<Row<T>> -> seq<Row<T>>)
    returns (holder: Holder<T>, ghost bound: nat)
    requires forall i :: 0 <= i < |blocks| ==> blocks[i].pid < FIRST_SID && Proper(blocks[i].tree)
    requires (slots ==> OneEach(blocks)) && forall s :: multiset(reorder(s)) == multiset(s)
    ensures fresh(holder) && forall pid :: IsRoot(slots, pid) ==> IsBack(holder, bound, blocks, pid)
  {
    var rows;
    ghost var trees;
    rows, trees := SaveItems(blocks);
    bound := FIRST_SID + |trees|;
    var result := reorder(rows);
    holder := new Holder();
    holder.LoadItems(result, x => true);
    LoadedIsListed(rows, trees, result, x => true, holder.itemMap);
    holder.Rebuild(slots, rows);
    forall pid | IsRoot(slots, pid) ensures IsBack(holder, bound, blocks, pid) {
      RoundTrip(slots, blocks, rows, trees, holder.itemMap, holder.roots, holder.contents, pid);
    }
  }
}
