/** Cutting a file into chunks: line windows, and the symbols an explicit-stack walk finds in a syntax tree. */
module Chunking {
  import opened Basics
  import opened IndexStore

  /** Lines are numbered from one; both ends are included. */
  datatype Window = Window(start: int, end: int)

  function Step(fallback: int, overlap: int): int {
    Max(1, fallback - overlap)
  }

  /** The window that begins at a line. */
  function WindowAt(start: int, last: int, fallback: int): Window {
    Window(start, Min(last, start + fallback - 1))
  }

  /** Any settings are accepted: the loop moves on by at least one line. */
  method LineWindows(first: int, last: int, fallback: int, overlap: int) returns (windows: seq<Window>)
    ensures Windows(windows, first, last, fallback, overlap)
  {
    windows := [];
    var step := Max(1, fallback - overlap);
    var start := first;
    while start <= last
      invariant start == first + |windows| * step
      invariant forall i :: 0 <= i < |windows| ==>
                  windows[i] == WindowAt(first + i * step, last, fallback) && windows[i].start <= last && windows[i].end != last
      decreases last - start
    {
      var end := Min(last, start + fallback - 1);
      windows := windows + [Window(start, end)];
      if end == last {
        break;
      }
      start := start + step;
      assert |windows| * step == (|windows| - 1) * step + step;
    }
  }

  /** Window i begins i steps after the first line, until one ends at the last line or none can begin any more. */
  ghost predicate Windows(windows: seq<Window>, first: int, last: int, fallback: int, overlap: int) {
    var step := Step(fallback, overlap);
    && (forall i :: 0 <= i < |windows| ==> windows[i] == WindowAt(first + i * step, last, fallback) && windows[i].start <= last)
    && (forall i :: 0 <= i < |windows| - 1 ==> windows[i].end != last)
    && ((windows != [] && windows[|windows| - 1].end == last) || first + |windows| * step > last)
  }

  lemma StepsAdd(step: int, i: int)
    ensures (i + 1) * step == i * step + step
  {
  }

  lemma {:induction false} StepsGrow(step: int, i: nat)
    requires step >= 1
    ensures i * step >= i
    decreases i
  {
    if i > 0 {
      StepsGrow(step, i - 1);
      StepsAdd(step, i - 1);
    }
  }

  /** The tiling: windows start at the first line and end at the last, both ends strictly increase, none is empty or
      longer than the fallback size, and neighbours share exactly fallback - step lines. */
  lemma WindowsTile(windows: seq<Window>, first: int, last: int, fallback: int, overlap: int)
    requires Windows(windows, first, last, fallback, overlap)
    requires fallback >= 1 && overlap >= 0 && first <= last
    ensures windows != [] && windows[0].start == first && windows[|windows| - 1].end == last
    ensures forall i | 0 <= i < |windows| :: windows[i].start <= windows[i].end < windows[i].start + fallback
    ensures forall i | 0 <= i < |windows| - 1 ::
              && windows[i].start < windows[i + 1].start && windows[i].end < windows[i + 1].end
              && windows[i].end - windows[i + 1].start + 1 == fallback - Step(fallback, overlap)
  {
    var step := Step(fallback, overlap);
    assert 0 * step == 0;
    assert windows != [];
    var n := |windows|;
    StepsAdd(step, n - 1);
    assert windows[n - 1] == WindowAt(first + (n - 1) * step, last, fallback);
    forall i | 0 <= i < n - 1
      ensures && windows[i].start < windows[i + 1].start && windows[i].end < windows[i + 1].end
              && windows[i].end - windows[i + 1].start + 1 == fallback - step {
      StepsAdd(step, i);
      assert windows[i] == WindowAt(first + i * step, last, fallback);
      assert windows[i + 1] == WindowAt(first + (i + 1) * step, last, fallback);
    }
  }

  /** How many windows there are: one when everything fits, otherwise one more per started step of the remainder. */
  lemma WindowCount(windows: seq<Window>, first: int, last: int, fallback: int, overlap: int)
    requires Windows(windows, first, last, fallback, overlap)
    requires fallback >= 1 && overlap >= 0 && first <= last
    ensures var lines, step := last - first + 1, Step(fallback, overlap);
            |windows| == if lines <= fallback then 1 else 1 + (lines - fallback + step - 1) / step
  {
    WindowsTile(windows, first, last, fallback, overlap);
    var n, lines, step := |windows|, last - first + 1, Step(fallback, overlap);
    assert windows[n - 1] == WindowAt(first + (n - 1) * step, last, fallback);
    assert (n - 1) * step >= lines - fallback;
    if n > 1 {
      assert windows[n - 2] == WindowAt(first + (n - 2) * step, last, fallback) && windows[n - 2].end != last;
      assert (n - 2) * step < lines - fallback;
      StepsGrow(step, n - 2);
      StepsAdd(step, n - 2);
      Quotient(lines - fallback + step - 1, step, n - 1);
    }
  }

  lemma Quotient(a: int, d: int, q: int)
    requires d >= 1 && q * d <= a < q * d + d
    ensures a / d == q
  {
    var r := a / d;
    assert a == r * d + a % d;
    Distribute(q - r, r, d);
    Distribute(r - q, q, d);
    if r < q {
      Product(q - r, d);
    } else if r > q {
      Product(r - q, d);
    }
  }

  lemma Distribute(i: int, j: int, d: int)
    ensures (i + j) * d == i * d + j * d
  {
  }

  lemma {:induction false} Product(k: int, d: int)
    requires k >= 1 && d >= 1
    ensures k * d >= d
    decreases k
  {
    if k > 1 {
      Product(k - 1, d);
      StepsAdd(d, k - 1);
    }
  }

  function LinesOf<T>(lines: seq<T>, w: Window): seq<T>
    requires 1 <= w.start <= w.end + 1 && w.end <= |lines|
  {
    lines[w.start - 1..w.end]
  }

  /** Every window lies within the lines, and from one to the next no line is skipped. */
  ghost predicate Chained<T>(lines: seq<T>, windows: seq<Window>) {
    && (forall i :: 0 <= i < |windows| ==> 1 <= windows[i].start <= windows[i].end + 1 && windows[i].end <= |lines|)
    && (forall i :: 0 <= i < |windows| - 1 ==> windows[i].start <= windows[i + 1].start <= windows[i].end + 1 <= windows[i + 1].end + 1)
  }

  /** The windows one after the other, each without the lines it shares with the one before. */
  ghost function Rebuilt<T>(lines: seq<T>, windows: seq<Window>): seq<T>
    requires Chained(lines, windows)
    decreases |windows|
  {
    if windows == [] then []
    else if |windows| == 1 then LinesOf(lines, windows[0])
    else
      var n := |windows|;
      var shared := windows[n - 2].end - windows[n - 1].start + 1;
      Rebuilt(lines, windows[..n - 1]) + LinesOf(lines, windows[n - 1])[shared..]
  }

  lemma SlicesJoin<T>(lines: seq<T>, from: nat, w: Window, before: nat)
    requires from <= before <= w.end <= |lines| && 1 <= w.start <= before + 1
    ensures lines[from..before] + LinesOf(lines, w)[before - w.start + 1..] == lines[from..w.end]
  {
    assert LinesOf(lines, w)[before - w.start + 1..] == lines[before..w.end];
  }

  lemma {:induction false} ChainRebuilds<T>(lines: seq<T>, windows: seq<Window>)
    requires Chained(lines, windows) && windows != []
    ensures windows[0].start - 1 <= windows[|windows| - 1].end
    ensures Rebuilt(lines, windows) == lines[windows[0].start - 1..windows[|windows| - 1].end]
    decreases |windows|
  {
    hide LinesOf, Rebuilt;
    if |windows| > 1 {
      var n := |windows|;
      RebuiltStep(lines, windows);
      ChainRebuilds(lines, windows[..n - 1]);
      SlicesJoin(lines, windows[0].start - 1, windows[n - 1], windows[n - 2].end);
    } else {
      OneWindow(lines, windows);
    }
  }

  lemma RebuiltStep<T>(lines: seq<T>, windows: seq<Window>)
    requires Chained(lines, windows) && |windows| > 1
    ensures var n := |windows|;
            Chained(lines, windows[..n - 1])
            && Rebuilt(lines, windows)
               == Rebuilt(lines, windows[..n - 1]) + LinesOf(lines, windows[n - 1])[windows[n - 2].end - windows[n - 1].start + 1..]
  {
    hide LinesOf;
  }

  lemma OneWindow<T>(lines: seq<T>, windows: seq<Window>)
    requires Chained(lines, windows) && |windows| == 1
    ensures Rebuilt(lines, windows) == lines[windows[0].start - 1..windows[0].end]
  {
  }

  lemma WindowsEndInTime(windows: seq<Window>, first: int, last: int, fallback: int, overlap: int)
    requires Windows(windows, first, last, fallback, overlap)
    ensures forall i | 0 <= i < |windows| :: windows[i].end <= last
  {
  }

  /** Concatenating the windows minus shared lines gives back the lines. */
  lemma WindowsRebuild<T>(lines: seq<T>, windows: seq<Window>, first: int, last: int, fallback: int, overlap: int)
    requires Windows(windows, first, last, fallback, overlap)
    requires fallback >= 1 && overlap >= 0 && 1 <= first <= last <= |lines|
    ensures Chained(lines, windows) && Rebuilt(lines, windows) == lines[first - 1..last]
  {
    hide Windows, Rebuilt;
    WindowsTile(windows, first, last, fallback, overlap);
    WindowsEndInTime(windows, first, last, fallback, overlap);
    StartsGrow(windows, |windows| - 1);
    ChainRebuilds(lines, windows);
  }

  lemma {:induction false} StartsGrow(windows: seq<Window>, n: nat)
    requires n < |windows| && forall i | 0 <= i < |windows| - 1 :: windows[i].start < windows[i + 1].start
    ensures forall i | 0 <= i <= n :: windows[0].start <= windows[i].start
    decreases n
  {
    if n > 0 {
      StartsGrow(windows, n - 1);
      assert windows[n - 1].start < windows[n - 1 + 1].start;
    }
  }

  ghost predicate Covered(windows: seq<Window>, line: int) {
    exists i :: 0 <= i < |windows| && windows[i].start <= line <= windows[i].end
  }

  /** For any settings: every line is in some window exactly when windows can hold a line and either overlap is not
      negative or one window holds everything. */
  lemma WindowsCover(windows: seq<Window>, first: int, last: int, fallback: int, overlap: int)
    requires Windows(windows, first, last, fallback, overlap) && first <= last
    ensures (forall line | first <= line <= last :: Covered(windows, line))
            <==> fallback >= 1 && (overlap >= 0 || last - first + 1 <= fallback)
  {
    if fallback >= 1 && overlap >= 0 {
      WindowsTile(windows, first, last, fallback, overlap);
      forall line | first <= line <= last ensures Covered(windows, line) {
        CoveredBefore(windows, first, last, fallback, overlap, line, |windows| - 1);
      }
    } else {
      FirstWindow(windows, first, last, fallback, overlap);
      if fallback < 1 {
        forall i | 0 <= i < |windows| ensures windows[i].end < windows[i].start {
          assert windows[i] == WindowAt(first + i * Step(fallback, overlap), last, fallback);
        }
        assert !Covered(windows, first);
      } else if last - first + 1 <= fallback {
        forall line | first <= line <= last ensures Covered(windows, line) {
          assert windows[0].start <= line <= windows[0].end;
        }
      } else {
        forall i | 0 < i < |windows| ensures windows[i].start > first + fallback {
          assert windows[i] == WindowAt(first + i * Step(fallback, overlap), last, fallback);
          Product(i, Step(fallback, overlap));
        }
        assert !Covered(windows, first + fallback);
      }
    }
  }

  lemma FirstWindow(windows: seq<Window>, first: int, last: int, fallback: int, overlap: int)
    requires Windows(windows, first, last, fallback, overlap) && first <= last
    ensures windows != [] && windows[0] == WindowAt(first, last, fallback)
  {
    assert 0 * Step(fallback, overlap) == 0;
  }

  lemma {:induction false} CoveredBefore(windows: seq<Window>, first: int, last: int, fallback: int, overlap: int, line: int, n: nat)
    requires Windows(windows, first, last, fallback, overlap) && fallback >= 1 && overlap >= 0 && first <= last
    requires n < |windows| && first <= line <= windows[n].end
    ensures Covered(windows, line)
    decreases n
  {
    WindowsTile(windows, first, last, fallback, overlap);
    if line >= windows[n].start {
      assert windows[n].start <= line <= windows[n].end;
    } else {
      assert windows[n - 1].start < windows[n - 1 + 1].start;
      CoveredBefore(windows, first, last, fallback, overlap, line, n - 1);
    }
  }

  // ---------- symbols ----------

  /** A named syntax node: its line range, the symbol it stands for if its type is one, and its named children. */
  datatype Node = Node(start: int, end: int, symbol: Option<Symbol>, children: seq<Node>)

  datatype Symbol = Symbol(name: Option<string>, kind: string)

  datatype Candidate = Candidate(start: int, end: int, symbol: Symbol)

  function Own(node: Node): seq<Candidate> {
    if node.symbol.Some? then [Candidate(node.start, node.end, node.symbol.value)] else []
  }

  /** The symbols of a tree in document order. */
  function Preorder(node: Node): seq<Candidate> {
    Own(node) + PreorderAll(node.children)
  }

  function PreorderAll(nodes: seq<Node>): seq<Candidate> {
    if nodes == [] then [] else Preorder(nodes[0]) + PreorderAll(nodes[1..])
  }

  /** Preorder read by position: a node's own symbol comes first, then its children's symbols, child after child. */
  lemma SubtreesInOrder(node: Node, k: nat)
    requires k < |node.children|
    ensures Preorder(node)
            == (if node.symbol.Some? then [Candidate(node.start, node.end, node.symbol.value)] else [])
               + PreorderAll(node.children[..k]) + Preorder(node.children[k]) + PreorderAll(node.children[k + 1..])
  {
    hide PreorderAll;
    PreorderInParts(node.children, k);
    var own, here := Own(node), Preorder(node.children[k]);
    var before, after := PreorderAll(node.children[..k]), PreorderAll(node.children[k + 1..]);
    assert Preorder(node) == own + (before + here + after);
    assert own + (before + here + after) == own + before + here + after;
  }

  lemma {:induction false} PreorderInParts(nodes: seq<Node>, k: nat)
    requires k < |nodes|
    ensures PreorderAll(nodes) == PreorderAll(nodes[..k]) + Preorder(nodes[k]) + PreorderAll(nodes[k + 1..])
    decreases k
  {
    hide Preorder;
    if k > 0 {
      PreorderInParts(nodes[1..], k - 1);
      assert nodes[..k][1..] == nodes[1..][..k - 1] && nodes[1..][k..] == nodes[k + 1..];
    }
  }

  function Reversed(nodes: seq<Node>): (r: seq<Node>)
    ensures |r| == |nodes|
    ensures forall i | 0 <= i < |nodes| :: r[i] == nodes[|nodes| - 1 - i]
  {
    if nodes == [] then [] else Reversed(nodes[1..]) + [nodes[0]]
  }

  function Weight(node: Node): nat {
    1 + WeightAll(node.children)
  }

  function WeightAll(nodes: seq<Node>): nat {
    if nodes == [] then 0 else Weight(nodes[0]) + WeightAll(nodes[1..])
  }

  /** What a stack, whose top is its last node, still has to yield. */
  function Pending(stack: seq<Node>): seq<Candidate>
    decreases |stack|
  {
    if stack == [] then [] else Preorder(stack[|stack| - 1]) + Pending(stack[..|stack| - 1])
  }

  function StackWeight(stack: seq<Node>): nat
    decreases |stack|
  {
    if stack == [] then 0 else Weight(stack[|stack| - 1]) + StackWeight(stack[..|stack| - 1])
  }

  lemma Push(stack: seq<Node>, node: Node)
    ensures Pending(stack + [node]) == Preorder(node) + Pending(stack)
    ensures StackWeight(stack + [node]) == Weight(node) + StackWeight(stack)
  {
    hide Preorder, Weight;
    assert (stack + [node])[..|stack|] == stack;
  }

  lemma {:induction false} PushReversed(stack: seq<Node>, children: seq<Node>)
    ensures Pending(stack + Reversed(children)) == PreorderAll(children) + Pending(stack)
    ensures StackWeight(stack + Reversed(children)) == WeightAll(children) + StackWeight(stack)
    decreases |children|
  {
    hide Preorder, Weight, Pending, StackWeight;
    if children == [] {
      assert stack + Reversed(children) == stack;
    } else {
      PushReversed(stack, children[1..]);
      Push(stack + Reversed(children[1..]), children[0]);
      assert stack + Reversed(children) == stack + Reversed(children[1..]) + [children[0]];
    }
  }

  lemma Pop(stack: seq<Node>)
    requires stack != []
    ensures var node, rest := stack[|stack| - 1], stack[..|stack| - 1];
            && Pending(stack) == Own(node) + (PreorderAll(node.children) + Pending(rest))
            && StackWeight(stack) == 1 + WeightAll(node.children) + StackWeight(rest)
  {
    hide PreorderAll, WeightAll, Own;
  }

  lemma OnlyRoot(root: Node)
    ensures Pending([root]) == Preorder(root) && Pending([]) == []
  {
    hide Preorder;
    assert [root][..0] == [];
  }

  /** The explicit-stack walk yields the symbols in document order. */
  method Walk(root: Node) returns (candidates: seq<Candidate>)
    ensures candidates == Preorder(root)
  {
    hide Preorder, PreorderAll, Pending, StackWeight, WeightAll, Own;
    candidates := [];
    var stack := [root];
    OnlyRoot(root);
    while stack != []
      invariant candidates + Pending(stack) == Preorder(root)
      decreases StackWeight(stack)
    {
      Pop(stack);
      var node := stack[|stack| - 1];
      stack := stack[..|stack| - 1];
      candidates := candidates + Own(node);
      PushReversed(stack, node.children);
      stack := stack + Reversed(node.children);
    }
  }

  // ---------- ordering and cutting the symbols ----------

  predicate NotAfter(a: Candidate, b: Candidate) {
    a.start < b.start || (a.start == b.start && a.end <= b.end)
  }

  /** A stable sort by (start, end). */
  function Ordered(cs: seq<Candidate>): seq<Candidate> {
    if cs == [] then [] else Placed(cs[0], Ordered(cs[1..]))
  }

  function Placed(c: Candidate, cs: seq<Candidate>): seq<Candidate> {
    if cs == [] || NotAfter(c, cs[0]) then [c] + cs else [cs[0]] + Placed(c, cs[1..])
  }

  /** The candidates with one line range, in order. */
  function Sharing(cs: seq<Candidate>, start: int, end: int): seq<Candidate> {
    if cs == [] then []
    else (if cs[0].start == start && cs[0].end == end then [cs[0]] else []) + Sharing(cs[1..], start, end)
  }

  ghost predicate InOrder(cs: seq<Candidate>) {
    forall i, j :: 0 <= i < j < |cs| ==> NotAfter(cs[i], cs[j])
  }

  lemma {:induction false} PlacedShares(c: Candidate, cs: seq<Candidate>, start: int, end: int)
    requires InOrder(cs)
    ensures Sharing(Placed(c, cs), start, end) == Sharing([c] + cs, start, end)
    decreases |cs|
  {
    if cs != [] && !NotAfter(c, cs[0]) {
      PlacedShares(c, cs[1..], start, end);
      assert ([cs[0]] + Placed(c, cs[1..]))[1..] == Placed(c, cs[1..]);
      assert ([c] + cs)[1..] == cs && ([c] + cs[1..])[1..] == cs[1..];
    }
  }

  lemma {:induction false} PlacedKeeps(c: Candidate, cs: seq<Candidate>)
    ensures multiset(Placed(c, cs)) == multiset(cs) + multiset{c}
    decreases |cs|
  {
    if cs != [] {
      PlacedKeeps(c, cs[1..]);
      assert cs == [cs[0]] + cs[1..];
    }
  }

  lemma FrontInOrder(c: Candidate, cs: seq<Candidate>)
    requires InOrder(cs) && forall x | x in cs :: NotAfter(c, x)
    ensures InOrder([c] + cs)
  {
    hide NotAfter;
  }

  lemma {:induction false} PlacedInOrder(c: Candidate, cs: seq<Candidate>)
    requires InOrder(cs)
    ensures InOrder(Placed(c, cs))
    decreases |cs|
  {
    if cs == [] || NotAfter(c, cs[0]) {
      forall x | x in cs ensures NotAfter(c, x) {
        var j :| 0 <= j < |cs| && cs[j] == x;
        assert j > 0 ==> NotAfter(cs[0], cs[j]);
      }
      FrontInOrder(c, cs);
    } else {
      var rest := Placed(c, cs[1..]);
      PlacedInOrder(c, cs[1..]);
      PlacedKeeps(c, cs[1..]);
      forall x | x in rest ensures NotAfter(cs[0], x) {
        assert x in multiset(rest);
        assert x == c || x in cs[1..];
      }
      FrontInOrder(cs[0], rest);
    }
  }

  /** The order is by position, loses and invents nothing, and keeps document order among symbols on the same lines. */
  lemma {:induction false} OrderedIsStable(cs: seq<Candidate>)
    ensures InOrder(Ordered(cs)) && multiset(Ordered(cs)) == multiset(cs)
    ensures forall start, end :: Sharing(Ordered(cs), start, end) == Sharing(cs, start, end)
    decreases |cs|
  {
    if cs != [] {
      var rest := Ordered(cs[1..]);
      OrderedIsStable(cs[1..]);
      PlacedInOrder(cs[0], rest);
      PlacedKeeps(cs[0], rest);
      assert cs == [cs[0]] + cs[1..];
      forall start, end ensures Sharing(Ordered(cs), start, end) == Sharing(cs, start, end) {
        PlacedShares(cs[0], rest, start, end);
        assert ([cs[0]] + rest)[1..] == rest;
      }
    }
  }

  /** The order by column: first line, then last line. */
  lemma OrderedByPosition(cs: seq<Candidate>, i: nat, j: nat)
    requires i < j < |Ordered(cs)|
    ensures Ordered(cs)[i].start <= Ordered(cs)[j].start
    ensures Ordered(cs)[i].start == Ordered(cs)[j].start ==> Ordered(cs)[i].end <= Ordered(cs)[j].end
  {
    OrderedIsStable(cs);
  }

  datatype Chunk = Chunk(window: Window, symbol: Symbol)

  function Chunks(windows: seq<Window>, symbol: Symbol): seq<Chunk> {
    seq(|windows|, i requires 0 <= i < |windows| => Chunk(windows[i], symbol))
  }

  /** The windows of one symbol: itself, or a split when it has too many lines. */
  ghost predicate CutOf(windows: seq<Window>, c: Candidate, maxLines: int, fallback: int, overlap: int) {
    if c.end - c.start + 1 > maxLines then Windows(windows, c.start, c.end, fallback, overlap)
    else windows == [Window(c.start, c.end)]
  }

  ghost predicate Cuts(parts: seq<seq<Window>>, cs: seq<Candidate>, maxLines: int, fallback: int, overlap: int) {
    |parts| == |cs| && forall i :: 0 <= i < |cs| ==> CutOf(parts[i], cs[i], maxLines, fallback, overlap)
  }

  ghost function Flattened(parts: seq<seq<Window>>, cs: seq<Candidate>): seq<Chunk>
    requires |parts| == |cs|
    decreases |cs|
  {
    if cs == [] then []
    else Flattened(parts[..|cs| - 1], cs[..|cs| - 1]) + Chunks(parts[|cs| - 1], cs[|cs| - 1].symbol)
  }

  /** chunks are the windows of the candidates, one candidate after the other. */
  ghost predicate CutInto(chunks: seq<Chunk>, cs: seq<Candidate>, maxLines: int, fallback: int, overlap: int) {
    exists parts :: Cuts(parts, cs, maxLines, fallback, overlap) && chunks == Flattened(parts, cs)
  }

  method CutSymbols(root: Node, maxLines: int, fallback: int, overlap: int) returns (chunks: seq<Chunk>)
    ensures CutInto(chunks, Ordered(Preorder(root)), maxLines, fallback, overlap)
  {
    hide Windows, Ordered, Preorder;
    var walked := Walk(root);
    var candidates := Ordered(walked);
    ghost var parts := [];
    chunks := [];
    for i := 0 to |candidates|
      invariant Cuts(parts, candidates[..i], maxLines, fallback, overlap)
      invariant chunks == Flattened(parts, candidates[..i])
    {
      var c := candidates[i];
      var windows := [Window(c.start, c.end)];
      if c.end - c.start + 1 > maxLines {
        windows := LineWindows(c.start, c.end, fallback, overlap);
      }
      assert candidates[..i + 1][..i] == candidates[..i] && (parts + [windows])[..i] == parts;
      chunks := chunks + Chunks(windows, c.symbol);
      parts := parts + [windows];
    }
    assert candidates[..|candidates|] == candidates;
  }

  /** The rows a file's chunks become; text gives the text of a line range. */
  function PieceOf(chunk: Chunk, text: Window -> string): Piece
    requires chunk.window.start >= 0 && chunk.window.end >= 0
  {
    Piece(chunk.window.start, chunk.window.end, text(chunk.window), chunk.symbol.name)
  }

  lemma {:induction false} UncutSymbolsAreChunks(parts: seq<seq<Window>>, cs: seq<Candidate>, maxLines: int, fallback: int, overlap: int,
                                                 i: nat, j: nat) returns (k: nat, l: nat)
    requires Cuts(parts, cs, maxLines, fallback, overlap) && i < j < |cs|
    requires cs[i].end - cs[i].start + 1 <= maxLines && cs[j].end - cs[j].start + 1 <= maxLines
    ensures k < l < |Flattened(parts, cs)|
    ensures Flattened(parts, cs)[k] == Chunk(Window(cs[i].start, cs[i].end), cs[i].symbol)
    ensures Flattened(parts, cs)[l] == Chunk(Window(cs[j].start, cs[j].end), cs[j].symbol)
    decreases |cs|
  {
    hide Windows;
    var n := |cs| - 1;
    assert Cuts(parts[..n], cs[..n], maxLines, fallback, overlap);
    if j < n {
      k, l := UncutSymbolsAreChunks(parts[..n], cs[..n], maxLines, fallback, overlap, i, j);
    } else {
      k := UncutSymbolIsChunk(parts[..n], cs[..n], maxLines, fallback, overlap, i);
      l := |Flattened(parts[..n], cs[..n])|;
      assert CutOf(parts[n], cs[n], maxLines, fallback, overlap);
    }
  }

  lemma {:induction false} UncutSymbolIsChunk(parts: seq<seq<Window>>, cs: seq<Candidate>, maxLines: int, fallback: int, overlap: int,
                                              i: nat) returns (k: nat)
    requires Cuts(parts, cs, maxLines, fallback, overlap) && i < |cs|
    requires cs[i].end - cs[i].start + 1 <= maxLines
    ensures k < |Flattened(parts, cs)|
    ensures Flattened(parts, cs)[k] == Chunk(Window(cs[i].start, cs[i].end), cs[i].symbol)
    decreases |cs|
  {
    hide Windows;
    var n := |cs| - 1;
    assert Cuts(parts[..n], cs[..n], maxLines, fallback, overlap);
    if i < n {
      k := UncutSymbolIsChunk(parts[..n], cs[..n], maxLines, fallback, overlap, i);
    } else {
      k := |Flattened(parts[..n], cs[..n])|;
      assert CutOf(parts[n], cs[n], maxLines, fallback, overlap);
    }
  }

  /** One way colliding chunk ids arise: two symbols on one line range, neither of them split, always collide. */
  lemma SharedLinesCollide(root: Node, chunks: seq<Chunk>, maxLines: int, fallback: int, overlap: int, text: Window -> string,
                           p: Path, pieces: seq<Piece>, start: int, end: int)
    requires CutInto(chunks, Ordered(Preorder(root)), maxLines, fallback, overlap)
    requires |pieces| == |chunks|
    requires forall k | 0 <= k < |chunks| ::
               chunks[k].window.start >= 0 && chunks[k].window.end >= 0 && pieces[k] == PieceOf(chunks[k], text)
    requires |Sharing(Preorder(root), start, end)| >= 2 && end - start + 1 <= maxLines
    ensures !Distinct(p, pieces)
  {
    hide Preorder, Flattened, Ordered, CutOf;
    var cs := Ordered(Preorder(root));
    var parts :| Cuts(parts, cs, maxLines, fallback, overlap) && chunks == Flattened(parts, cs);
    OrderedIsStable(Preorder(root));
    var i, j := TwoSharing(cs, start, end);
    var k, l := UncutSymbolsAreChunks(parts, cs, maxLines, fallback, overlap, i, j);
    assert IdOf(p, pieces[k]) == IdOf(p, pieces[l]);
  }

  /** The exact condition: chunk ids are distinct exactly when no two chunks have the same lines, since the text of a chunk
      is that of its lines. */
  lemma DistinctExactlyWhen(chunks: seq<Chunk>, text: Window -> string, p: Path, pieces: seq<Piece>)
    requires |pieces| == |chunks|
    requires forall k | 0 <= k < |chunks| ::
               chunks[k].window.start >= 0 && chunks[k].window.end >= 0 && pieces[k] == PieceOf(chunks[k], text)
    ensures Distinct(p, pieces) <==> forall k, l | 0 <= k < l < |chunks| :: chunks[k].window != chunks[l].window
  {
    forall k, l | 0 <= k < l < |chunks|
      ensures IdOf(p, pieces[k]) == IdOf(p, pieces[l]) <==> chunks[k].window == chunks[l].window {
      assert pieces[k] == PieceOf(chunks[k], text) && pieces[l] == PieceOf(chunks[l], text);
    }
  }

  /** A file cut by line windows alone never collides. */
  lemma LineWindowsAreDistinct(windows: seq<Window>, first: nat, last: int, fallback: int, overlap: int, symbol: Symbol,
                               text: Window -> string, p: Path, pieces: seq<Piece>)
    requires Windows(windows, first, last, fallback, overlap) && fallback >= 1
    requires |pieces| == |windows|
    requires forall k | 0 <= k < |windows| :: windows[k].start >= 0 && windows[k].end >= 0
                                             && pieces[k] == PieceOf(Chunk(windows[k], symbol), text)
    ensures Distinct(p, pieces)
  {
    var chunks := Chunks(windows, symbol);
    assert forall k | 0 <= k < |chunks| :: chunks[k] == Chunk(windows[k], symbol);
    forall k, l | 0 <= k < l < |chunks| ensures chunks[k].window != chunks[l].window {
      LaterWindowsStartLater(windows, first, last, fallback, overlap, k, l);
    }
    DistinctExactlyWhen(chunks, text, p, pieces);
  }

  lemma LaterWindowsStartLater(windows: seq<Window>, first: int, last: int, fallback: int, overlap: int, k: nat, l: nat)
    requires Windows(windows, first, last, fallback, overlap) && k < l < |windows|
    ensures windows[k].start < windows[l].start
  {
    var step := Step(fallback, overlap);
    assert windows[k] == WindowAt(first + k * step, last, fallback) && windows[l] == WindowAt(first + l * step, last, fallback);
    Product(l - k, step);
    Distribute(l - k, k, step);
  }

  lemma {:induction false} TwoSharing(cs: seq<Candidate>, start: int, end: int) returns (i: nat, j: nat)
    requires |Sharing(cs, start, end)| >= 2
    ensures i < j < |cs| && cs[i].start == cs[j].start == start && cs[i].end == cs[j].end == end
    decreases |cs|
  {
    if cs[0].start == start && cs[0].end == end {
      j := OneSharing(cs[1..], start, end);
      i, j := 0, j + 1;
    } else {
      i, j := TwoSharing(cs[1..], start, end);
      i, j := i + 1, j + 1;
    }
  }

  lemma {:induction false} OneSharing(cs: seq<Candidate>, start: int, end: int) returns (i: nat)
    requires |Sharing(cs, start, end)| >= 1
    ensures i < |cs| && cs[i].start == start && cs[i].end == end
    decreases |cs|
  {
    if cs[0].start == start && cs[0].end == end {
      i := 0;
    } else {
      i := OneSharing(cs[1..], start, end);
      i := i + 1;
    }
  }
}
