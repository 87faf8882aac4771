/**
 * The file-selection side of the panel, as values: the snapshot of the
 * project's file tree that a rebuild walks, the checked state that the build
 * registers per path (the panel's `nodeMap`), the paths that the checkbox tree
 * reports as checked, and the code context assembled from them.
 */
module FileSelection {
  import opened Wrappers

  /** One entry of the project's file system: a plain file, or a directory with its children in listing order. */
  datatype FileTree = File(path: string) | Dir(path: string, children: seq<FileTree>)

  /** What the host reports when the tree is built: no project base directory, or the tree under it. */
  datatype Snapshot = NoProject | Project(root: FileTree)

  /** What the checkbox tree shows: the "no project found" stand-in node, or the tree built from a snapshot. */
  datatype View = Placeholder | Rooted(root: FileTree)

  /** Path (user object) of the stand-in node shown when there is no project. */
  const PlaceholderPath := "no project found"

  /** Separator written between a path and its file text in the code context. */
  const PathSeparator := "\n\n\n"

  /** The paths of a tree in pre-order (the order the checkbox tree walks its nodes). */
  function Paths(t: FileTree): (ps: seq<string>)
    ensures |ps| >= 1 && ps[0] == t.path
    decreases t, 1
  {
    match t
    case File(p) => [p]
    case Dir(p, cs) => [p] + PathsOf(cs)
  }

  /** The paths of a sequence of sibling trees, each tree after the ones before it. */
  function PathsOf(ts: seq<FileTree>): seq<string>
    decreases ts, 0
  {
    if ts == [] then [] else PathsOf(ts[..|ts| - 1]) + Paths(ts[|ts| - 1])
  }

  /**
   * The writes that the recursive build of a subtree makes to `nodeMap`, in
   * order, later writes overriding earlier ones: every node starts unchecked
   * and is checked when its path is the focused file.
   */
  function Marks(t: FileTree, focus: Option<string>): map<string, bool>
    decreases t, 1
  {
    match t
    case File(p) => map[p := Some(p) == focus]
    case Dir(p, cs) => map[p := Some(p) == focus] + MarksOf(cs, focus)
  }

  /** The writes of the builds of sibling subtrees, left to right. */
  function MarksOf(ts: seq<FileTree>, focus: Option<string>): map<string, bool>
    decreases ts, 0
  {
    if ts == [] then map[] else MarksOf(ts[..|ts| - 1], focus) + Marks(ts[|ts| - 1], focus)
  }

  /** The root's children, when the root is a directory. */
  function RootChildren(t: FileTree): seq<FileTree>
  {
    if t.Dir? then t.children else []
  }

  /** The writes of a whole rebuild: the root is registered unchecked, then its children are built. */
  function RootMarks(t: FileTree, focus: Option<string>): map<string, bool>
  {
    map[t.path := false] + MarksOf(RootChildren(t), focus)
  }

  /** Overriding a map with two maps in turn is overriding it with their union. */
  lemma UnionAssociative(a: map<string, bool>, b: map<string, bool>, c: map<string, bool>)
    ensures (a + b) + c == a + (b + c)
  {
  }

  /** Building one more sibling adds that sibling's writes after the others'. */
  lemma MarksOfSnoc(ts: seq<FileTree>, i: nat, focus: Option<string>)
    requires i < |ts|
    ensures MarksOf(ts[..i + 1], focus) == MarksOf(ts[..i], focus) + Marks(ts[i], focus)
  {
    assert ts[..i + 1][..i] == ts[..i];
  }

  /** Every path written by a build is a path of the tree, and every written value says "this is the focused file". */
  lemma {:induction false} MarksMeaning(t: FileTree, focus: Option<string>)
    ensures forall p :: p in Marks(t, focus) <==> p in Paths(t)
    ensures forall p :: p in Marks(t, focus) ==> Marks(t, focus)[p] == (Some(p) == focus)
    decreases t, 1
  {
    match t
    case File(p) =>
    case Dir(p, cs) => MarksOfMeaning(cs, focus);
  }

  /** MarksMeaning for a sequence of siblings. */
  lemma {:induction false} MarksOfMeaning(ts: seq<FileTree>, focus: Option<string>)
    ensures forall p :: p in MarksOf(ts, focus) <==> p in PathsOf(ts)
    ensures forall p :: p in MarksOf(ts, focus) ==> MarksOf(ts, focus)[p] == (Some(p) == focus)
    decreases ts, 0
  {
    if ts != [] {
      MarksOfMeaning(ts[..|ts| - 1], focus);
      MarksMeaning(ts[|ts| - 1], focus);
    }
  }

  /** A rebuild registers exactly the paths of the tree. */
  lemma RootMarksKeys(t: FileTree, focus: Option<string>)
    ensures forall p :: p in RootMarks(t, focus) <==> p in Paths(t)
  {
    MarksOfMeaning(RootChildren(t), focus);
    assert Paths(t) == [t.path] + PathsOf(RootChildren(t));
  }

  /**
   * After a rebuild, the registered paths are exactly the tree's paths; the
   * root is unchecked and every other node is checked exactly when its path is
   * the focused file (the root's path occurs once in a file-system tree).
   */
  lemma RebuildChecksOnlyFocus(t: FileTree, focus: Option<string>)
    requires t.path !in PathsOf(RootChildren(t))
    ensures forall p :: p in RootMarks(t, focus) <==> p in Paths(t)
    ensures !RootMarks(t, focus)[t.path]
    ensures forall p :: p in Paths(t) && p != t.path ==> RootMarks(t, focus)[p] == (Some(p) == focus)
  {
    MarksOfMeaning(RootChildren(t), focus);
    assert Paths(t) == [t.path] + PathsOf(RootChildren(t));
  }

  /** The checked paths among `ps`, in order. */
  function Selected(ps: seq<string>, checked: map<string, bool>): (r: seq<string>)
    ensures forall p :: p in r ==> p in ps && p in checked && checked[p]
    ensures forall p :: p in ps && p in checked && checked[p] ==> p in r
  {
    if ps == [] then []
    else
      var last := ps[|ps| - 1];
      assert forall p :: p in ps ==> p in ps[..|ps| - 1] || p == last;
      Selected(ps[..|ps| - 1], checked) + (if last in checked && checked[last] then [last] else [])
  }

  /**
   * The paths of the leaf nodes of a tree (nodes without children: files and
   * empty directories), in pre-order. The checkbox tree's checked-node query
   * descends through every inner node and reports checked leaves only.
   */
  function LeafPaths(t: FileTree): seq<string>
    decreases t, 1
  {
    match t
    case File(p) => [p]
    case Dir(p, cs) => if cs == [] then [p] else LeafPathsOf(cs)
  }

  /** The leaf paths of a sequence of sibling trees, each tree after the ones before it. */
  function LeafPathsOf(ts: seq<FileTree>): seq<string>
    decreases ts, 0
  {
    if ts == [] then [] else LeafPathsOf(ts[..|ts| - 1]) + LeafPaths(ts[|ts| - 1])
  }

  /** Every leaf is a node: no path occurs more often among the leaves than among all nodes. */
  lemma {:induction false} LeafPathsWithin(t: FileTree)
    ensures multiset(LeafPaths(t)) <= multiset(Paths(t))
    decreases t, 1
  {
    match t
    case File(_) =>
    case Dir(p, cs) =>
      if cs != [] {
        LeafPathsOfWithin(cs);
      }
  }

  /** The same for sibling trees. */
  lemma {:induction false} LeafPathsOfWithin(ts: seq<FileTree>)
    ensures multiset(LeafPathsOf(ts)) <= multiset(PathsOf(ts))
    decreases ts, 0
  {
    if ts != [] {
      LeafPathsOfWithin(ts[..|ts| - 1]);
      LeafPathsWithin(ts[|ts| - 1]);
    }
  }

  /** Hence every leaf path is a path of the tree, and leaves of a tree without repeated paths do not repeat either. */
  lemma LeafPathsAreNodes(t: FileTree)
    ensures forall q :: q in LeafPaths(t) ==> q in Paths(t)
    ensures Distinct(Paths(t)) ==> Distinct(LeafPaths(t))
  {
    var L, P := multiset(LeafPaths(t)), multiset(Paths(t));
    LeafPathsWithin(t);
    forall q | q in LeafPaths(t)
      ensures q in Paths(t) && L[q] <= P[q]
    {
      assert L[q] > 0;
    }
  }

  /**
   * The user objects of the checked leaf nodes of what the tree shows, as the
   * checkbox tree's checked-node query returns them; the stand-in node is a
   * leaf and is checked by default.
   */
  function CheckedPaths(view: View, checked: map<string, bool>): seq<string>
  {
    match view
    case Placeholder => [PlaceholderPath]
    case Rooted(t) => Selected(LeafPaths(t), checked)
  }

  /** One file's block in the code context: its path, a separator, its text and a line break. */
  function Block(p: string, read: string -> string): string
  {
    p + PathSeparator + read(p) + "\n"
  }

  /** The blocks of the given paths, in order. */
  function Blocks(ps: seq<string>, read: string -> string): string
  {
    if ps == [] then "" else Blocks(ps[..|ps| - 1], read) + Block(ps[|ps| - 1], read)
  }

  /** The code context sent with a question: empty until a tree has been built, else the checked files' blocks. */
  function CodeContext(foundFiles: bool, view: View, checked: map<string, bool>, read: string -> string): string
  {
    if !foundFiles then "" else Blocks(CheckedPaths(view, checked), read)
  }

  /** The context of a concatenation of path lists is the concatenation of their contexts. */
  lemma {:induction false} BlocksAppend(a: seq<string>, b: seq<string>, read: string -> string)
    ensures Blocks(a + b, read) == Blocks(a, read) + Blocks(b, read)
    decreases |b|
  {
    if b == [] {
      assert a + b == a;
    } else {
      var front, last := b[..|b| - 1], b[|b| - 1];
      assert (a + b)[..|a + b| - 1] == a + front;
      assert (a + b)[|a + b| - 1] == last;
      BlocksAppend(a, front, read);
      calc {
        Blocks(a + b, read);
        Blocks(a + front, read) + Block(last, read);
        (Blocks(a, read) + Blocks(front, read)) + Block(last, read);
        Blocks(a, read) + (Blocks(front, read) + Block(last, read));
        Blocks(a, read) + Blocks(b, read);
      }
    }
  }

  /** No path occurs twice in `ps`, as in a listing of a file system. */
  predicate Distinct(ps: seq<string>)
  {
    forall x :: x in ps ==> multiset(ps)[x] <= 1
  }

  /** When none of the paths is checked, the checked-node query returns nothing. */
  lemma {:induction false} SelectedNone(ps: seq<string>, checked: map<string, bool>)
    requires forall q :: q in ps ==> q in checked && !checked[q]
    ensures Selected(ps, checked) == []
  {
    if ps != [] {
      assert forall q :: q in ps[..|ps| - 1] ==> q in ps;
      SelectedNone(ps[..|ps| - 1], checked);
    }
  }

  /** In a list without repetitions where exactly `p` is checked, the checked-node query returns `p` alone, if present. */
  lemma {:induction false} SelectedSingle(ps: seq<string>, checked: map<string, bool>, p: string)
    requires Distinct(ps)
    requires forall q :: q in ps ==> q in checked && checked[q] == (q == p)
    ensures Selected(ps, checked) == if p in ps then [p] else []
  {
    if ps != [] {
      var front, last := ps[..|ps| - 1], ps[|ps| - 1];
      assert ps == front + [last];
      assert multiset(ps) == multiset(front) + multiset{last};
      assert forall q :: q in front ==> q in ps;
      SelectedSingle(front, checked, p);
      if last == p {
        assert multiset(front)[p] == 0;
      } else {
        assert p in ps <==> p in front;
      }
    }
  }

  /** After a rebuild focused on a non-root path `p` of a tree without repeated paths, exactly `p` is checked among its nodes. */
  lemma RebuildChecksExactly(t: FileTree, p: string, before: map<string, bool>)
    requires Distinct(Paths(t))
    requires p != t.path
    ensures forall q :: q in Paths(t) ==> q in before + RootMarks(t, Some(p)) && (before + RootMarks(t, Some(p)))[q] == (q == p)
  {
    var ps := Paths(t);
    assert ps == [t.path] + PathsOf(RootChildren(t));
    assert multiset(ps) == multiset{t.path} + multiset(PathsOf(RootChildren(t)));
    assert multiset(PathsOf(RootChildren(t)))[t.path] == 0;
    RebuildChecksOnlyFocus(t, Some(p));
  }

  /**
   * Rebuilding a tree with distinct paths while a non-root leaf `p` (a file,
   * or an empty directory) is focused makes the code context exactly that file's block, whatever was
   * registered in the node map before.
   */
  lemma ContextAfterRebuild(t: FileTree, p: string, before: map<string, bool>, read: string -> string)
    requires Distinct(Paths(t))
    requires p in LeafPaths(t) && p != t.path
    ensures CodeContext(true, Rooted(t), before + RootMarks(t, Some(p)), read) == Block(p, read)
  {
    var m := before + RootMarks(t, Some(p));
    RebuildChecksExactly(t, p, before);
    LeafPathsAreNodes(t);
    SelectedSingle(LeafPaths(t), m, p);
    assert CheckedPaths(Rooted(t), m) == [p];
    assert Blocks([p], read) == Blocks([], read) + Block(p, read);
  }

  /** Rebuilding while no file is focused leaves every node of the tree unchecked: the context is empty. */
  lemma ContextAfterRebuildUnfocused(t: FileTree, before: map<string, bool>, read: string -> string)
    ensures CodeContext(true, Rooted(t), before + RootMarks(t, None), read) == ""
  {
    var m := before + RootMarks(t, None);
    MarksOfMeaning(RootChildren(t), None);
    assert Paths(t) == [t.path] + PathsOf(RootChildren(t));
    assert forall q :: q in Paths(t) ==> q in m && !m[q];
    LeafPathsAreNodes(t);
    SelectedNone(LeafPaths(t), m);
  }

  /**
   * The check moves of a focus change: with a file newly focused, the node of
   * the previously focused path (if registered) is unchecked, then the node of
   * the new path (if registered) is checked; with no file focused nothing
   * changes. No path is added or removed.
   */
  function Refocus(checked: map<string, bool>, previous: Option<string>, file: Option<string>): (r: map<string, bool>)
    ensures r.Keys == checked.Keys
    ensures file.None? ==> r == checked
    ensures file.Some? && file.value in checked ==> r[file.value]
    ensures file.Some? && previous.Some? && previous != file && previous.value in checked ==> !r[previous.value]
    ensures forall q :: q in checked && Some(q) != file && Some(q) != previous ==> r[q] == checked[q]
  {
    if file.None? then checked
    else
      var unchecked := if previous.Some? && previous.value in checked then checked[previous.value := false] else checked;
      if file.value in unchecked then unchecked[file.value := true] else unchecked
  }

  /** Among the given paths, only the focused file (if any) is checked. */
  predicate OnlyFocusChecked(ps: seq<string>, checked: map<string, bool>, focus: Option<string>)
  {
    forall q :: q in ps && q in checked && checked[q] ==> Some(q) == focus
  }

  /** A rebuild leaves at most the focused file checked among the tree's paths. */
  lemma RebuildEstablishesOnlyFocus(t: FileTree, before: map<string, bool>, focus: Option<string>)
    ensures OnlyFocusChecked(Paths(t), before + RootMarks(t, focus), focus)
  {
    MarksOfMeaning(RootChildren(t), focus);
    assert Paths(t) == [t.path] + PathsOf(RootChildren(t));
  }

  /** Moving the focus to a file keeps "only the focused file is checked". */
  lemma RefocusKeepsOnlyFocus(ps: seq<string>, checked: map<string, bool>, previous: Option<string>, file: string)
    requires OnlyFocusChecked(ps, checked, previous)
    ensures OnlyFocusChecked(ps, Refocus(checked, previous, Some(file)), Some(file))
  {
  }

  /**
   * Losing the focus does not uncheck the old file, and the next focus change
   * cannot uncheck it either: for any two registered files `a` and `b`,
   * focusing `a`, dropping the focus and then focusing `b` leaves both checked.
   */
  lemma UnfocusLeavesOldCheck(checked: map<string, bool>, previous: Option<string>, a: string, b: string)
    requires a in checked && b in checked
    ensures var m := Refocus(Refocus(Refocus(checked, previous, Some(a)), Some(a), None), None, Some(b));
            m[a] && m[b]
  {
    var m1 := Refocus(checked, previous, Some(a));
    var m2 := Refocus(m1, Some(a), None);
    assert m2 == m1 && m1[a];
  }
}
