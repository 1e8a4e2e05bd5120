/** The framed node files read by `OTB::Loader`. */
module Otb {
  import opened Bytes

  const ESCAPE: Byte := 0xFD
  const START: Byte := 0xFE
  const END: Byte := 0xFF

  /** A node as the loader keeps it: its type, where its raw properties lie, its children.
      `stop` is the position after its END. */
  datatype Node = Node(kind: Byte, begin: nat, end: nat, stop: nat, children: seq<Node>)

  /** A node that is still open. */
  datatype Frame = Frame(kind: Byte, begin: nat, end: nat, children: seq<Node>)

  datatype Result<T> = Ok(value: T) | InvalidFormat

  /** The stack of open nodes, outermost first, and the root once it has been closed. */
  datatype State = State(open: seq<Frame>, root: Node)

  const IDENTIFIER_SIZE := 4
  const WILDCARD: seq<Byte> := [0, 0, 0, 0]
  const NO_NODE := Node(0, 0, 0, 0, [])

  /** One node pops: it becomes the last child of the node around it, or the root. */
  function Close(st: State, i: nat): State
    requires st.open != []
  {
    var n := |st.open| - 1;
    var top := st.open[n];
    var node := Node(top.kind, top.begin, if top.children == [] then i else top.end, i + 1, top.children);
    if n == 0 then State([], node)
    else
      var around := st.open[n - 1];
      State(st.open[..n - 1] + [around.(children := around.children + [node])], st.root)
  }

  /** The first child ends the properties of the node around it. */
  function Open(st: State, i: nat, kind: Byte): State
    requires st.open != []
  {
    var n := |st.open| - 1;
    var top := st.open[n];
    State(st.open[..n] + [if top.children == [] then top.(end := i) else top] + [Frame(kind, i + 2, 0, [])], st.root)
  }

  /** What the loop of the parser does from position `i` on. */
  function ParseFrom(b: seq<Byte>, i: nat, st: State): Result<Node>
    decreases |b| - i
  {
    if i >= |b| then (if st.open == [] then Ok(st.root) else InvalidFormat)
    else if b[i] == START then
      if st.open == [] || i + 1 == |b| then InvalidFormat
      else ParseFrom(b, i + 2, Open(st, i, b[i + 1]))
    else if b[i] == END then
      if st.open == [] then InvalidFormat
      else ParseFrom(b, i + 1, Close(st, i))
    else if b[i] == ESCAPE then
      if i + 1 == |b| then InvalidFormat else ParseFrom(b, i + 2, st)
    else ParseFrom(b, i + 1, st)
  }

  // ------------------------------------------------------------- the grammar

  /** Bytes that open and close nothing, with whole escape pairs. */
  ghost predicate Plain(b: seq<Byte>, i: int, j: int)
    decreases j - i
  {
    0 <= i <= j <= |b| &&
    (i == j
     || (b[i] == ESCAPE && Plain(b, i + 2, j))
     || (b[i] != ESCAPE && b[i] != START && b[i] != END && Plain(b, i + 1, j)))
  }

  /** Before child `i` nothing opens or closes since the child before it, or since `k`. */
  ghost predicate GapOk(b: seq<Byte>, k: int, cs: seq<Node>, i: nat)
    requires i < |cs|
  {
    Plain(b, if i == 0 then k else cs[i - 1].stop, cs[i].begin - 2)
  }

  ghost predicate Siblings(b: seq<Byte>, k: int, m: int, cs: seq<Node>) {
    && (forall i :: 0 <= i < |cs| ==> GapOk(b, k, cs, i))
    && Plain(b, if cs == [] then k else cs[|cs| - 1].stop, m)
  }

  /** The bytes from the node's START to its END spell it: START, type, properties, then
      children with other bytes between them, END. */
  ghost predicate Spelled(b: seq<Byte>, n: Node) {
    && 2 <= n.begin <= n.end < n.stop <= |b|
    && b[n.begin - 2] == START && b[n.begin - 1] == n.kind && b[n.stop - 1] == END
    && Plain(b, n.begin, n.end)
    && (if n.children == [] then n.end == n.stop - 1 else n.children[0].begin - 2 == n.end)
    && Siblings(b, n.end, n.stop - 1, n.children)
    && forall i :: 0 <= i < |n.children| ==> Spelled(b, n.children[i])
  }

  /** A whole file: four bytes of identifier, the root, and bytes that open and close nothing. */
  ghost predicate WellFormed(b: seq<Byte>, n: Node) {
    n.begin == IDENTIFIER_SIZE + 2 && Spelled(b, n) && Plain(b, n.stop, |b|)
  }

  lemma {:induction false} PlainSkips(b: seq<Byte>, i: nat, j: nat, st: State)
    requires Plain(b, i, j)
    ensures ParseFrom(b, i, st) == ParseFrom(b, j, st)
    decreases j - i
  {
    if i < j {
      PlainSkips(b, if b[i] == ESCAPE then i + 2 else i + 1, j, st);
    }
  }

  lemma {:induction false} PlainJoin(b: seq<Byte>, i: nat, j: nat, k: nat)
    requires Plain(b, i, j) && Plain(b, j, k)
    ensures Plain(b, i, k)
    decreases j - i
  {
    if i < j { PlainJoin(b, if b[i] == ESCAPE then i + 2 else i + 1, j, k); }
  }

  // ------------------------------------------- every spelled node is read back

  /** The innermost open node of `st` holds the first `j` children of `n`. */
  ghost function Holding(st: State, n: Node, j: nat): State
    requires st.open != [] && j <= |n.children|
  {
    var m := |st.open| - 1;
    State(st.open[..m] + [Frame(n.kind, n.begin, if j == 0 then st.open[m].end else n.end, n.children[..j])], st.root)
  }

  /** The innermost open node of `st` is closed as `n`. */
  ghost function ClosedAs(st: State, n: Node): State
    requires st.open != []
  {
    var m := |st.open| - 1;
    if m == 0 then State([], n)
    else State(st.open[..m - 1] + [st.open[m - 1].(children := st.open[m - 1].children + [n])], st.root)
  }

  ghost predicate Fresh(st: State, n: Node) {
    st.open != [] && var top := st.open[|st.open| - 1];
    top.kind == n.kind && top.begin == n.begin && top.children == []
  }

  lemma {:induction false} ReadBody(b: seq<Byte>, n: Node, st: State)
    requires Spelled(b, n) && Fresh(st, n)
    ensures ParseFrom(b, n.begin, st) == ParseFrom(b, n.stop, ClosedAs(st, n))
    decreases n, |n.children| + 2
  {
    var k := |n.children|;
    PlainSkips(b, n.begin, n.end, st);
    ReadChildren(b, n, st, k);
    var inside := Holding(st, n, k);
    assert n.children[..k] == n.children;
    PlainSkips(b, Before(n, k), n.stop - 1, inside);
    CloseIsClosed(st, n);
  }

  lemma {:induction false} CloseIsClosed(st: State, n: Node)
    requires st.open != [] && n.stop > 0 && (n.children == [] ==> n.end == n.stop - 1)
    ensures Close(Holding(st, n, |n.children|), n.stop - 1) == ClosedAs(st, n)
  {
    assert n.children[..|n.children|] == n.children;
  }

  lemma {:induction false} Opens(b: seq<Byte>, i: nat, kind: Byte, st: State)
    requires st.open != [] && i + 1 < |b| && b[i] == START && b[i + 1] == kind
    ensures ParseFrom(b, i, st) == ParseFrom(b, i + 2, Open(st, i, kind))
  {
  }

  /** One child, with the plain bytes before it. */
  lemma {:induction false} ReadChild(b: seq<Byte>, c: Node, st: State, from: nat, inner: State, after: State)
    requires Spelled(b, c) && st.open != [] && Plain(b, from, c.begin - 2)
    requires inner == Open(st, c.begin - 2, c.kind) && after == ClosedAs(inner, c)
    ensures ParseFrom(b, from, st) == ParseFrom(b, c.stop, after)
    decreases c, |c.children| + 3
  {
    PlainSkips(b, from, c.begin - 2, st);
    Opens(b, c.begin - 2, c.kind, st);
    ReadBody(b, c, inner);
  }

  /** Where the part of the node before child `j` ends. */
  function Before(n: Node, j: nat): nat
    requires j <= |n.children|
  {
    if j == 0 then n.end else n.children[j - 1].stop
  }

  lemma {:induction false} ChildSpelled(b: seq<Byte>, n: Node, j: nat, c: Node)
    requires Spelled(b, n) && j < |n.children| && c == n.children[j]
    ensures Spelled(b, c) && Plain(b, Before(n, j), c.begin - 2)
    ensures n.children[0].begin >= 2 && n.children[0].begin - 2 == n.end
  {
    assert GapOk(b, n.end, n.children, j);
    assert Spelled(b, n.children[0]);
  }

  lemma {:induction false} NextChild(b: seq<Byte>, n: Node, st: State, j: nat, c: Node)
    requires Spelled(b, n) && st.open != [] && j < |n.children| && c == n.children[j]
    ensures ParseFrom(b, Before(n, j), Holding(st, n, j)) == ParseFrom(b, c.stop, Holding(st, n, j + 1))
    decreases n, 0
  {
    ChildSpelled(b, n, j, c);
    OpenThenClosed(st, n, j + 1);
    ReadChild(b, c, Holding(st, n, j), Before(n, j), Open(Holding(st, n, j), c.begin - 2, c.kind),
        Holding(st, n, j + 1));
  }

  lemma {:induction false} ReadChildren(b: seq<Byte>, n: Node, st: State, j: nat)
    requires Spelled(b, n) && Fresh(st, n) && j <= |n.children|
    ensures ParseFrom(b, n.end, st) == ParseFrom(b, Before(n, j), Holding(st, n, j))
    decreases n, j + 1
  {
    if j == 0 {
      assert Holding(st, n, 0) == st;
    } else {
      ReadChildren(b, n, st, j - 1);
      NextChild(b, n, st, j - 1, n.children[j - 1]);
    }
  }

  lemma {:induction false} OpenThenClosed(st: State, n: Node, j: nat)
    requires st.open != [] && 0 < j <= |n.children| && n.children[j - 1].begin >= 2
    requires n.children[0].begin - 2 == n.end
    ensures var c := n.children[j - 1];
            ClosedAs(Open(Holding(st, n, j - 1), c.begin - 2, c.kind), c) == Holding(st, n, j)
  {
    assert n.children[..j] == n.children[..j - 1] + [n.children[j - 1]];
  }

  /** The parser accepts every well-formed file and returns exactly that node. */
  lemma {:induction false} ParseComplete(b: seq<Byte>, n: Node)
    requires WellFormed(b, n)
    ensures ParseFrom(b, IDENTIFIER_SIZE + 2, Start(b)) == Ok(n)
  {
    ReadBody(b, n, Start(b));
    PlainSkips(b, n.stop, |b|, State([], n));
  }

  function Start(b: seq<Byte>): State
    requires |b| > IDENTIFIER_SIZE + 1
  {
    State([Frame(b[IDENTIFIER_SIZE + 1], IDENTIFIER_SIZE + 2, 0, [])], NO_NODE)
  }

  // --------------------------------------- whatever is accepted is well-formed

  /** The frame's part of the file is spelled right up to position `k`. */
  ghost predicate FrameOk(b: seq<Byte>, f: Frame, k: int) {
    && 2 <= f.begin <= k <= |b| && b[f.begin - 2] == START && b[f.begin - 1] == f.kind
    && (if f.children == [] then Plain(b, f.begin, k)
        else f.begin <= f.end <= k && Plain(b, f.begin, f.end) && f.children[0].begin - 2 == f.end &&
             Siblings(b, f.end, k, f.children))
    && forall i :: 0 <= i < |f.children| ==> Spelled(b, f.children[i])
  }

  /** The first child of the outer node ends its properties. */
  predicate Nested(outer: Frame, inner: int) {
    outer.children == [] ==> outer.end == inner - 2
  }

  ghost predicate StackOk(b: seq<Byte>, open: seq<Frame>, k: int) {
    if open == [] then true
    else if |open| == 1 then FrameOk(b, open[0], k) && open[0].begin == IDENTIFIER_SIZE + 2
    else
      && FrameOk(b, open[|open| - 1], k)
      && Nested(open[|open| - 2], open[|open| - 1].begin)
      && StackOk(b, open[..|open| - 1], open[|open| - 1].begin - 2)
  }

  ghost predicate StateOk(b: seq<Byte>, st: State, i: nat) {
    if st.open == []
    then st.root.begin == IDENTIFIER_SIZE + 2 && Spelled(b, st.root) && Plain(b, st.root.stop, i)
    else StackOk(b, st.open, i)
  }

  lemma {:induction false} PlainStep(b: seq<Byte>, i: int, j: int, k: int)
    requires Plain(b, i, j) && j < k <= |b|
    requires if b[j] == ESCAPE then k == j + 2 else b[j] != START && b[j] != END && k == j + 1
    ensures Plain(b, i, k)
  {
    assert Plain(b, j, k);
    PlainJoin(b, i, j, k);
  }

  lemma {:induction false} StepPlain(b: seq<Byte>, st: State, i: nat, k: nat)
    requires StateOk(b, st, i) && i < k <= |b|
    requires if b[i] == ESCAPE then k == i + 2 else b[i] != START && b[i] != END && k == i + 1
    ensures StateOk(b, st, k)
  {
    if st.open == [] {
      PlainStep(b, st.root.stop, i, k);
    } else {
      var f := st.open[|st.open| - 1];
      PlainStep(b, if f.children == [] then f.begin else f.children[|f.children| - 1].stop, i, k);
    }
  }

  lemma {:induction false} StepOpen(b: seq<Byte>, st: State, i: nat)
    requires StateOk(b, st, i) && st.open != [] && i + 1 < |b| && b[i] == START
    ensures StateOk(b, Open(st, i, b[i + 1]), i + 2)
  {
    var n := |st.open| - 1;
    var top := st.open[n];
    var open' := Open(st, i, b[i + 1]).open;
    var marked := st.open[..n] + [if top.children == [] then top.(end := i) else top];
    assert open'[..n + 1] == marked;
    assert marked[..n] == st.open[..n];
    assert Plain(b, i + 2, i + 2);
  }

  lemma {:induction false} ClosedSpelled(b: seq<Byte>, top: Frame, i: nat)
    requires FrameOk(b, top, i) && i < |b| && b[i] == END
    ensures Spelled(b, Node(top.kind, top.begin, if top.children == [] then i else top.end, i + 1, top.children))
  {
    assert Plain(b, i, i);
  }

  /** A closed node joins the frame around it. */
  lemma {:induction false} StackGrows(b: seq<Byte>, open: seq<Frame>, node: Node)
    requires open != [] && node.begin >= 2 && Spelled(b, node) && StackOk(b, open, node.begin - 2)
    requires Nested(open[|open| - 1], node.begin)
    ensures var m := |open| - 1;
            StackOk(b, open[..m] + [open[m].(children := open[m].children + [node])], node.stop)
  {
    var m := |open| - 1;
    ChildAdded(b, open[m], node, node.stop);
    assert (open[..m] + [open[m].(children := open[m].children + [node])])[..m] == open[..m];
  }

  /** The innermost of several open nodes closes into the one around it. */
  lemma {:induction false} StepCloseInner(b: seq<Byte>, open: seq<Frame>, top: Frame, node: Node, i: nat)
    requires StackOk(b, open + [top], i) && open != [] && FrameOk(b, top, i) && Spelled(b, node)
    requires node.begin == top.begin && node.stop == i + 1
    ensures var m := |open| - 1;
            StackOk(b, open[..m] + [open[m].(children := open[m].children + [node])], i + 1)
  {
    assert (open + [top])[..|open|] == open;
    StackGrows(b, open, node);
  }

  lemma {:induction false} TopOk(b: seq<Byte>, open: seq<Frame>, top: Frame, i: nat)
    requires StackOk(b, open + [top], i)
    ensures FrameOk(b, top, i) && (open == [] ==> top.begin == IDENTIFIER_SIZE + 2)
  {
  }

  lemma {:induction false} StepClose(b: seq<Byte>, st: State, i: nat)
    requires StateOk(b, st, i) && st.open != [] && i < |b| && b[i] == END
    ensures StateOk(b, Close(st, i), i + 1)
  {
    var n := |st.open| - 1;
    var top, around := st.open[n], st.open[..n];
    var node := Node(top.kind, top.begin, if top.children == [] then i else top.end, i + 1, top.children);
    assert st.open == around + [top];
    TopOk(b, around, top, i);
    ClosedSpelled(b, top, i);
    if n > 0 {
      StepCloseInner(b, around, top, node, i);
      assert Close(st, i).open == around[..n - 1] + [around[n - 1].(children := around[n - 1].children + [node])];
    } else {
      assert Close(st, i) == State([], node) && Plain(b, i + 1, i + 1);
    }
  }

  lemma {:induction false} ChildAdded(b: seq<Byte>, f: Frame, c: Node, k: nat)
    requires FrameOk(b, f, c.begin - 2) && Spelled(b, c) && c.stop == k && (f.children == [] ==> f.end == c.begin - 2)
    ensures FrameOk(b, f.(children := f.children + [c]), k)
  {
    assert Plain(b, c.begin - 2, c.begin - 2) && Plain(b, k, k);
    var cs := f.children + [c];
    forall i | 0 <= i < |cs| ensures GapOk(b, f.end, cs, i) {
      if i < |f.children| { assert GapOk(b, f.end, f.children, i); }
    }
  }

  lemma {:induction false} ParseSound(b: seq<Byte>, i: nat, st: State, n: Node)
    requires StateOk(b, st, i) && ParseFrom(b, i, st) == Ok(n)
    ensures WellFormed(b, n)
    decreases |b| - i
  {
    if i < |b| {
      if b[i] == START {
        StepOpen(b, st, i);
        ParseSound(b, i + 2, Open(st, i, b[i + 1]), n);
      } else if b[i] == END {
        StepClose(b, st, i);
        ParseSound(b, i + 1, Close(st, i), n);
      } else {
        var k := if b[i] == ESCAPE then i + 2 else i + 1;
        StepPlain(b, st, i, k);
        ParseSound(b, k, st, n);
      }
    }
  }

  // ------------------------------------------------------- escaped properties

  /** Drops every escape byte that is not itself escaped. */
  function Unescape(s: seq<Byte>, lastEscaped: bool): seq<Byte> {
    if s == [] then []
    else
      var escaped := s[0] == ESCAPE && !lastEscaped;
      (if escaped then [] else [s[0]]) + Unescape(s[1..], escaped)
  }

  function Escape(s: seq<Byte>): seq<Byte> {
    if s == [] then []
    else (if s[0] == ESCAPE || s[0] == START || s[0] == END then [ESCAPE, s[0]] else [s[0]]) + Escape(s[1..])
  }

  lemma {:induction false} UnescapeEscape(s: seq<Byte>)
    ensures Unescape(Escape(s), false) == s
  {
    if s != [] {
      UnescapeEscape(s[1..]);
      var rest := Escape(s[1..]);
      if s[0] == ESCAPE || s[0] == START || s[0] == END {
        assert ([ESCAPE, s[0]] + rest)[1..] == [s[0]] + rest;
        assert ([s[0]] + rest)[1..] == rest;
      } else {
        assert ([s[0]] + rest)[1..] == rest;
      }
    }
  }

  lemma {:induction false} UnescapeSnoc(s: seq<Byte>, x: Byte, flag: bool)
    ensures Unescape(s + [x], flag)
            == Unescape(s, flag) + if x == ESCAPE && !EndsEscaped(s, flag) then [] else [x]
  {
    if s == [] {
      assert s + [x] == [x];
    } else {
      UnescapeSnoc(s[1..], x, s[0] == ESCAPE && !flag);
      assert (s + [x])[1..] == s[1..] + [x];
    }
  }

  /** Whether the last byte was an escape that still waits for its byte. */
  function EndsEscaped(s: seq<Byte>, flag: bool): bool {
    if s == [] then flag else EndsEscaped(s[1..], s[0] == ESCAPE && !flag)
  }

  lemma {:induction false} EndsEscapedSnoc(s: seq<Byte>, x: Byte, flag: bool)
    ensures EndsEscaped(s + [x], flag) == (x == ESCAPE && !EndsEscaped(s, flag))
  {
    if s == [] {
      assert s + [x] == [x];
    } else {
      EndsEscapedSnoc(s[1..], x, s[0] == ESCAPE && !flag);
      assert (s + [x])[1..] == s[1..] + [x];
    }
  }

  // ----------------------------------------------------------------- the loader

  class Loader {
    const fileContents: seq<Byte>
    var root: Node
    var propBuffer: seq<Byte>

    constructor (contents: seq<Byte>)
      ensures fileContents == contents
    {
      fileContents, root, propBuffer := contents, NO_NODE, [];
    }

    /** Opens a file, which must be longer than the least node and bear the accepted identifier, or none. */
    static method OpenFile(contents: seq<Byte>, acceptedIdentifier: seq<Byte>) returns (loader: Loader?)
      ensures loader != null <==>
                && |contents| > IDENTIFIER_SIZE + 3
                && (contents[..IDENTIFIER_SIZE] == acceptedIdentifier || contents[..IDENTIFIER_SIZE] == WILDCARD)
      ensures loader != null ==> fresh(loader) && loader.fileContents == contents
    {
      loader := null;
      if |contents| <= IDENTIFIER_SIZE + 3 { return; }
      var fileIdentifier := contents[..IDENTIFIER_SIZE];
      if fileIdentifier != acceptedIdentifier && fileIdentifier != WILDCARD { return; }
      loader := new Loader(contents);
    }

    /** Accepts exactly the well-formed files and returns the node they spell. */
    method ParseTree() returns (r: Result<Node>)
      requires |fileContents| > IDENTIFIER_SIZE + 3
      modifies this
      ensures propBuffer == old(propBuffer)
      ensures r.Ok? ==> root == r.value && WellFormed(fileContents, r.value)
      ensures forall n :: WellFormed(fileContents, n) ==> r == Ok(n)
    {
      var b := fileContents;
      if b[IDENTIFIER_SIZE] != START {
        return InvalidFormat;
      }
      var i, st := IDENTIFIER_SIZE + 2, Start(b);
      assert Plain(b, i, i);
      ghost var outcome := ParseFrom(b, i, st);
      forall n | WellFormed(b, n) ensures outcome == Ok(n) { ParseComplete(b, n); }
      if outcome.Ok? { ParseSound(b, i, st, outcome.value); }
      while i < |b|
        invariant IDENTIFIER_SIZE + 2 <= i <= |b| && ParseFrom(b, i, st) == outcome
      {
        if b[i] == START {
          if st.open == [] || i + 1 == |b| {
            return InvalidFormat;
          }
          st, i := Open(st, i, b[i + 1]), i + 2;
        } else if b[i] == END {
          if st.open == [] {
            return InvalidFormat;
          }
          st, i := Close(st, i), i + 1;
        } else if b[i] == ESCAPE {
          if i + 1 == |b| {
            return InvalidFormat;
          }
          i := i + 2;
        } else {
          i := i + 1;
        }
      }
      if st.open != [] {
        return InvalidFormat;
      }
      root := st.root;
      return Ok(root);
    }

    /** The properties of a node without their escapes; fails when there are none. */
    method GetProps(node: Node) returns (ok: bool)
      requires node.begin <= node.end <= |fileContents|
      modifies this`propBuffer
      ensures ok <==> node.begin < node.end
      ensures ok ==> propBuffer == Unescape(fileContents[node.begin..node.end], false)
      ensures !ok ==> propBuffer == old(propBuffer)
    {
      if node.begin == node.end {
        return false;
      }
      var raw := fileContents[node.begin..node.end];
      var lastEscaped, kept, i := false, [], 0;
      while i < |raw|
        invariant 0 <= i <= |raw|
        invariant kept == Unescape(raw[..i], false) && lastEscaped == EndsEscaped(raw[..i], false)
      {
        assert raw[..i + 1] == raw[..i] + [raw[i]];
        UnescapeSnoc(raw[..i], raw[i], false);
        EndsEscapedSnoc(raw[..i], raw[i], false);
        lastEscaped := raw[i] == ESCAPE && !lastEscaped;
        if !lastEscaped {
          kept := kept + [raw[i]];
        }
        i := i + 1;
      }
      assert raw[..i] == raw;
      propBuffer := kept;
      return true;
    }
  }

  // ------------------------------------------------------------- the round trip

  /** What a file stands for. */
  datatype Tree = Tree(kind: Byte, props: seq<Byte>, children: seq<Tree>)

  function Encode(t: Tree): seq<Byte>
    decreases t, 0
  {
    [START] + ([t.kind] + (Escape(t.props) + (EncodeAll(t.children) + [END])))
  }

  function EncodeAll(ts: seq<Tree>): seq<Byte>
    decreases ts, 1
  {
    if ts == [] then [] else EncodeAll(ts[..|ts| - 1]) + Encode(ts[|ts| - 1])
  }

  /** The node the parser must return for `t` written at position `p`. */
  function NodeOf(t: Tree, p: nat): Node
    decreases t, 0
  {
    var end := p + 2 + |Escape(t.props)|;
    Node(t.kind, p + 2, end, p + |Encode(t)|, NodesOf(t.children, end))
  }

  function NodesOf(ts: seq<Tree>, p: nat): (ns: seq<Node>)
    ensures |ns| == |ts|
    decreases ts, 1
  {
    if ts == [] then []
    else NodesOf(ts[..|ts| - 1], p) + [NodeOf(ts[|ts| - 1], p + |EncodeAll(ts[..|ts| - 1])|)]
  }

  lemma {:induction false} EscapedIsPlain(b: seq<Byte>, p: nat, s: seq<Byte>)
    requires At(b, p, Escape(s))
    ensures Plain(b, p, p + |Escape(s)|)
    decreases |s|
  {
    if s != [] {
      var special := s[0] == ESCAPE || s[0] == START || s[0] == END;
      var first := if special then [ESCAPE, s[0]] else [s[0]];
      AtSplit(b, p, first, Escape(s[1..]));
      AtFirst(b, p, first);
      EscapedIsPlain(b, p + |first|, s[1..]);
    }
  }

  /** The node has the type, the unescaped properties and the children of the tree. */
  ghost predicate Stands(b: seq<Byte>, n: Node, t: Tree)
    decreases t
  {
    && n.kind == t.kind && n.begin <= n.end <= |b| && Unescape(b[n.begin..n.end], false) == t.props
    && |n.children| == |t.children|
    && forall i :: 0 <= i < |t.children| ==> Stands(b, n.children[i], t.children[i])
  }

  ghost predicate Faithful(b: seq<Byte>, n: Node, t: Tree) {
    Spelled(b, n) && Stands(b, n, t)
  }

  /** Nodes that follow each other without a gap from `p` to `q`. */
  ghost predicate Adjacent(ns: seq<Node>, p: nat, q: nat) {
    if ns == [] then p == q
    else ns[|ns| - 1].stop == q && forall i :: 0 <= i < |ns| ==> Follows(ns, p, i)
  }

  ghost predicate Follows(ns: seq<Node>, p: nat, i: nat)
    requires i < |ns|
  {
    ns[i].begin == (if i == 0 then p else ns[i - 1].stop) + 2
  }

  lemma {:induction false} NodesAdjacent(ts: seq<Tree>, p: nat)
    ensures Adjacent(NodesOf(ts, p), p, p + |EncodeAll(ts)|)
  {
    if ts != [] {
      var before := NodesOf(ts[..|ts| - 1], p);
      NodesAdjacent(ts[..|ts| - 1], p);
      forall i | 0 <= i < |ts| ensures Follows(NodesOf(ts, p), p, i) {
        if i < |before| { assert Follows(before, p, i); }
      }
    }
  }

  lemma {:induction false} AdjacentSiblings(b: seq<Byte>, ns: seq<Node>, p: nat, q: nat)
    requires Adjacent(ns, p, q) && q <= |b| && p <= |b|
    requires forall i :: 0 <= i < |ns| ==> ns[i].stop <= |b| && ns[i].begin <= |b|
    ensures Siblings(b, p, q, ns)
  {
    forall i | 0 <= i < |ns| ensures GapOk(b, p, ns, i) {
      assert Follows(ns, p, i);
    }
  }

  ghost predicate AllFaithful(b: seq<Byte>, ns: seq<Node>, ts: seq<Tree>) {
    |ns| == |ts| && forall i :: 0 <= i < |ts| ==> Faithful(b, ns[i], ts[i])
  }

  lemma {:induction false} EncodedNode(b: seq<Byte>, p: nat, t: Tree)
    requires At(b, p, Encode(t))
    ensures Faithful(b, NodeOf(t, p), t)
    decreases t, 0
  {
    var n := NodeOf(t, p);
    EncodedParts(b, p, t, n);
    EncodedNodes(b, n.end, t.children);
    EncodedShell(b, p, t, n);
  }

  lemma {:induction false} PropsCameBack(b: seq<Byte>, begin: nat, end: nat, props: seq<Byte>)
    requires At(b, begin, Escape(props)) && end == begin + |Escape(props)|
    ensures begin <= end <= |b| && Plain(b, begin, end) && Unescape(b[begin..end], false) == props
  {
    EscapedIsPlain(b, begin, props);
    UnescapeEscape(props);
    AtSlice(b, begin, Escape(props));
  }

  lemma {:induction false} EncodedShell(b: seq<Byte>, p: nat, t: Tree, n: Node)
    requires n.kind == t.kind && n.begin == p + 2 && n.end == n.begin + |Escape(t.props)| && n.end < n.stop <= |b|
    requires n.children == NodesOf(t.children, n.end) && AllFaithful(b, n.children, t.children)
    requires b[p] == START && b[p + 1] == t.kind && At(b, p + 2, Escape(t.props)) && b[n.stop - 1] == END
    requires n.stop - 1 == n.end + |EncodeAll(t.children)|
    ensures Faithful(b, n, t)
  {
    PropsCameBack(b, n.begin, n.end, t.props);
    NodesAdjacent(t.children, n.end);
    NodeIsSpelled(b, n, t);
    NodeStands(b, n, t);
  }

  lemma {:induction false} NodeIsSpelled(b: seq<Byte>, n: Node, t: Tree)
    requires AllFaithful(b, n.children, t.children)
    requires 2 <= n.begin <= n.end < n.stop <= |b| && Plain(b, n.begin, n.end)
    requires b[n.begin - 2] == START && b[n.begin - 1] == n.kind && b[n.stop - 1] == END
    requires Adjacent(n.children, n.end, n.stop - 1)
    ensures Spelled(b, n)
  {
    forall i | 0 <= i < |n.children|
      ensures Spelled(b, n.children[i]) && n.children[i].begin <= n.children[i].stop <= |b|
    {
      assert Faithful(b, n.children[i], t.children[i]);
    }
    AdjacentSiblings(b, n.children, n.end, n.stop - 1);
    if n.children != [] { assert Follows(n.children, n.end, 0); }
  }

  lemma {:induction false} NodeStands(b: seq<Byte>, n: Node, t: Tree)
    requires AllFaithful(b, n.children, t.children)
    requires n.kind == t.kind && n.begin <= n.end <= |b| && Unescape(b[n.begin..n.end], false) == t.props
    ensures Stands(b, n, t)
  {
    forall i | 0 <= i < |t.children| ensures Stands(b, n.children[i], t.children[i]) {
      assert Faithful(b, n.children[i], t.children[i]);
    }
  }

  /** The parts of a node's bytes. */
  lemma {:induction false} PartsAt(b: seq<Byte>, p: nat, kind: Byte, props: seq<Byte>, inner: seq<Byte>)
    requires At(b, p, [START] + ([kind] + (props + (inner + [END]))))
    ensures b[p] == START && b[p + 1] == kind && At(b, p + 2, props) && At(b, p + 2 + |props|, inner)
    ensures p + 2 + |props| + |inner| < |b| && b[p + 2 + |props| + |inner|] == END
  {
    AtThree(b, p, [START], [kind], props + (inner + [END]));
    AtThree(b, p + 2, props, inner, [END]);
    AtFirst(b, p, [START]);
    AtFirst(b, p + 1, [kind]);
    AtFirst(b, p + 2 + |props| + |inner|, [END]);
  }

  lemma {:induction false} EncodedParts(b: seq<Byte>, p: nat, t: Tree, n: Node)
    requires At(b, p, Encode(t)) && n == NodeOf(t, p)
    ensures b[p] == START && b[p + 1] == t.kind && At(b, p + 2, Escape(t.props)) && At(b, n.end, EncodeAll(t.children))
    ensures n.begin == p + 2 && n.end == n.begin + |Escape(t.props)| && n.children == NodesOf(t.children, n.end)
    ensures n.stop - 1 == n.end + |EncodeAll(t.children)| && n.stop <= |b| && b[n.stop - 1] == END
  {
    PartsAt(b, p, t.kind, Escape(t.props), EncodeAll(t.children));
  }

  /** The last tree of a list is written after the others. */
  lemma {:induction false} LastOfList(b: seq<Byte>, p: nat, ts: seq<Tree>, init: seq<Tree>, last: Tree)
    requires ts != [] && init == ts[..|ts| - 1] && last == ts[|ts| - 1] && At(b, p, EncodeAll(ts))
    ensures ts == init + [last] && At(b, p, EncodeAll(init)) && At(b, p + |EncodeAll(init)|, Encode(last))
    ensures NodesOf(ts, p) == NodesOf(init, p) + [NodeOf(last, p + |EncodeAll(init)|)]
  {
    AtSplit(b, p, EncodeAll(init), Encode(last));
  }

  lemma {:induction false} EncodedNodes(b: seq<Byte>, p: nat, ts: seq<Tree>)
    requires At(b, p, EncodeAll(ts))
    ensures AllFaithful(b, NodesOf(ts, p), ts)
    decreases ts, 1
  {
    if ts != [] {
      var init, last := ts[..|ts| - 1], ts[|ts| - 1];
      LastOfList(b, p, ts, init, last);
      var after := p + |EncodeAll(init)|;
      EncodedNodes(b, p, init);
      EncodedNode(b, after, last);
      FaithfulSnoc(b, NodesOf(init, p), init, NodeOf(last, after), last, NodesOf(ts, p), ts);
    }
  }

  lemma {:induction false} FaithfulSnoc(b: seq<Byte>, ns: seq<Node>, ts: seq<Tree>, n: Node, t: Tree, ns': seq<Node>,
                                        ts': seq<Tree>)
    requires AllFaithful(b, ns, ts) && Faithful(b, n, t) && ns' == ns + [n] && ts' == ts + [t]
    ensures AllFaithful(b, ns', ts')
  {
    forall i | 0 <= i < |ts'| ensures Faithful(b, ns'[i], ts'[i]) {
      if i < |ts| { assert Faithful(b, ns[i], ts[i]); }
    }
  }

  /** Reading what was written gives the tree back, whatever plain bytes follow it, and gives
      nothing else. */
  lemma {:induction false} RoundTrip(identifier: seq<Byte>, t: Tree, rest: seq<Byte>)
    requires |identifier| == IDENTIFIER_SIZE && Plain(rest, 0, |rest|)
    ensures var b := identifier + Encode(t) + rest;
            && WellFormed(b, NodeOf(t, IDENTIFIER_SIZE)) && Stands(b, NodeOf(t, IDENTIFIER_SIZE), t)
            && forall n :: WellFormed(b, n) ==> n == NodeOf(t, IDENTIFIER_SIZE)
  {
    var b, e := identifier + Encode(t) + rest, Encode(t);
    assert b[IDENTIFIER_SIZE..IDENTIFIER_SIZE + |e|] == e;
    AtSlice(b, IDENTIFIER_SIZE, e);
    EncodedNode(b, IDENTIFIER_SIZE, t);
    assert b[IDENTIFIER_SIZE + |e|..] == rest;
    PlainShift(rest, b, 0, IDENTIFIER_SIZE + |e|);
    OneReading(b, NodeOf(t, IDENTIFIER_SIZE));
  }

  /** A file spells at most one node. */
  lemma {:induction false} OneReading(b: seq<Byte>, m: Node)
    requires WellFormed(b, m)
    ensures forall n :: WellFormed(b, n) ==> n == m
  {
    ParseComplete(b, m);
    forall n | WellFormed(b, n) ensures n == m { ParseComplete(b, n); }
  }

  lemma {:induction false} PlainShift(s: seq<Byte>, b: seq<Byte>, i: nat, p: nat)
    requires Plain(s, i, |s|) && p + |s| == |b| && b[p..] == s
    ensures Plain(b, p + i, |b|)
    decreases |s| - i
  {
    if i < |s| {
      assert b[p + i] == b[p..][i];
      PlainShift(s, b, if s[i] == ESCAPE then i + 2 else i + 1, p);
    }
  }
}
