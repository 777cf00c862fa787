/**
 * The bounded search for controls (app/selection/uia_provider.py). A control is its identity; the children of a control,
 * sorted by priority, and its parent are stable functions, with None for a missing one. The graph may have cycles.
 */
module ControlSearch {
  import opened Wrappers

  type Control = nat
  type Children = Control -> seq<Option<Control>>
  type Parent = Control -> Option<Control>

  const MAX_ANCESTOR_DEPTH := 8
  const MAX_CONTEXT_SUBTREE_CONTROLS := 64
  const MAX_CONTEXT_SUBTREE_DEPTH := 6

  // ---------------------------------------------------------------- depth

  predicate Edge(children: Children, a: Control, b: Control) {
    Some(b) in children(a)
  }

  /** The control is at most `d` edges from the root. */
  ghost predicate Near(children: Children, root: Control, c: Control, d: nat)
    decreases d
  {
    if d == 0 then c == root
    else Near(children, root, c, d - 1) || exists m :: Near(children, root, m, d - 1) && Edge(children, m, c)
  }

  /** A path in the graph. */
  predicate IsWalk(children: Children, walk: seq<Control>) {
    walk != [] && forall i | 0 < i < |walk| :: Edge(children, walk[i - 1], walk[i])
  }

  predicate Reaches(children: Children, root: Control, c: Control, walk: seq<Control>, d: nat) {
    IsWalk(children, walk) && walk[0] == root && walk[|walk| - 1] == c && |walk| <= d + 1
  }

  lemma {:induction false} WalkIsNear(children: Children, root: Control, c: Control, walk: seq<Control>, d: nat)
    requires Reaches(children, root, c, walk, d)
    ensures Near(children, root, c, d)
    decreases d
  {
    if d > 0 {
      var n := |walk| - 1;
      if n > 0 {
        WalkIsNear(children, root, walk[n - 1], walk[..n], d - 1);
        assert Edge(children, walk[n - 1], c);
      } else {
        WalkIsNear(children, root, c, walk, d - 1);
      }
    }
  }

  lemma {:induction false} NearHasWalk(children: Children, root: Control, c: Control, d: nat) returns (walk: seq<Control>)
    requires Near(children, root, c, d)
    ensures Reaches(children, root, c, walk, d)
    decreases d
  {
    if d == 0 {
      walk := [root];
    } else if Near(children, root, c, d - 1) {
      walk := NearHasWalk(children, root, c, d - 1);
    } else {
      var m :| Near(children, root, m, d - 1) && Edge(children, m, c);
      var before := NearHasWalk(children, root, m, d - 1);
      walk := before + [c];
    }
  }

  /** `Near` is reachability along at most `d` edges. */
  lemma {:induction false} NearIsReachability(children: Children, root: Control, c: Control, d: nat)
    ensures Near(children, root, c, d) <==> exists walk :: Reaches(children, root, c, walk, d)
  {
    if Near(children, root, c, d) {
      var walk := NearHasWalk(children, root, c, d);
    }
    if walk :| Reaches(children, root, c, walk, d) {
      WalkIsNear(children, root, c, walk, d);
    }
  }

  /** The shortest distance from the root, of a control at most `d` edges away. */
  ghost function Depth(children: Children, root: Control, c: Control, d: nat): (r: nat)
    requires Near(children, root, c, d)
    ensures r <= d && AtDepth(children, root, c, r)
  {
    if d == 0 || !Near(children, root, c, d - 1) then d else Depth(children, root, c, d - 1)
  }

  ghost predicate AtDepth(children: Children, root: Control, c: Control, d: nat) {
    Near(children, root, c, d) && (d > 0 ==> !Near(children, root, c, d - 1))
  }

  lemma {:induction false} NearGrows(children: Children, root: Control, d: nat, e: nat)
    requires d <= e
    ensures forall c :: Near(children, root, c, d) ==> Near(children, root, c, e)
  {
    if d < e {
      NearGrows(children, root, d, e - 1);
    }
  }

  lemma {:induction false} OneDepth(children: Children, root: Control, c: Control, d: nat, e: nat)
    requires AtDepth(children, root, c, d) && AtDepth(children, root, c, e)
    ensures d == e
  {
    if d < e {
      NearGrows(children, root, d, e - 1);
    } else if e < d {
      NearGrows(children, root, e, d - 1);
    }
  }

  // ---------------------------------------------------------------- the breadth-first search

  predicate Distinct(s: seq<Control>) {
    forall i, j | 0 <= i < j < |s| :: s[i] != s[j]
  }

  predicate Ascending(s: seq<nat>) {
    forall i, j | 0 <= i < j < |s| :: s[i] <= s[j]
  }

  /** The controls found so far after the root, each with its depth, in the order of discovery. */
  ghost predicate Found(children: Children, root: Control, order: seq<Control>, depths: seq<nat>) {
    && |order| == |depths| > 0 && order[0] == root && depths[0] == 0
    && Distinct(order) && Ascending(depths)
    && (forall i | 0 <= i < |order| :: AtDepth(children, root, order[i], depths[i]) && depths[i] <= MAX_CONTEXT_SUBTREE_DEPTH)
  }

  function Contents<T>(s: seq<T>): set<T> {
    set x | x in s
  }

  /** The controls whose children have all been looked at. */
  predicate Expanded(children: Children, order: seq<Control>, depths: seq<nat>, k: nat)
    requires |order| == |depths| && k <= |order|
  {
    forall i, j | 0 <= i < k && depths[i] < MAX_CONTEXT_SUBTREE_DEPTH && 0 <= j < |children(order[i])| ::
      children(order[i])[j].Some? ==> children(order[i])[j].value in order
  }

  /** The waiting queue: the controls from position `k` on, with their depths. */
  predicate Waiting(queue: seq<(Control, nat)>, order: seq<Control>, depths: seq<nat>, k: nat)
    requires |order| == |depths|
  {
    k + |queue| == |order| && forall i | 0 <= i < |queue| :: queue[i] == (order[k + i], depths[k + i])
  }

  ghost predicate NearerFound(children: Children, root: Control, order: seq<Control>, d: nat) {
    forall c :: Near(children, root, c, d) ==> c in order
  }

  /** A found control is no deeper than any bound it lies within. */
  lemma {:induction false} DepthIsLeast(children: Children, root: Control, order: seq<Control>, depths: seq<nat>, i: nat, d: nat)
    requires Found(children, root, order, depths) && i < |order| && Near(children, root, order[i], d)
    ensures depths[i] <= d
  {
    OneDepth(children, root, order[i], depths[i], Depth(children, root, order[i], d));
  }

  /** The children of an expanded control are found. */
  lemma {:induction false} ChildFound(children: Children, order: seq<Control>, depths: seq<nat>, k: nat, i: nat, c: Control)
    requires |order| == |depths| && k <= |order| && Expanded(children, order, depths, k)
    requires i < k && depths[i] < MAX_CONTEXT_SUBTREE_DEPTH && Edge(children, order[i], c)
    ensures c in order
  {
  }

  /** When all found controls at depth `d` have been expanded, everything one level deeper has been found. */
  lemma {:induction false} LevelFound(children: Children, root: Control, order: seq<Control>, depths: seq<nat>, k: nat, d: nat,
                                      c: Control)
    requires Found(children, root, order, depths) && k <= |order| && Expanded(children, order, depths, k)
    requires d < MAX_CONTEXT_SUBTREE_DEPTH && NearerFound(children, root, order, d)
    requires forall i | k <= i < |order| :: depths[i] > d
    requires Near(children, root, c, d + 1)
    ensures c in order
  {
    if !Near(children, root, c, d) {
      var m :| Near(children, root, m, d) && Edge(children, m, c);
      assert m in order;
      var i :| 0 <= i < |order| && order[i] == m;
      DepthIsLeast(children, root, order, depths, i, d);
      ChildFound(children, order, depths, k, i, c);
    }
  }

  lemma {:induction false} NextLevelFound(children: Children, root: Control, order: seq<Control>, depths: seq<nat>, k: nat)
    requires Found(children, root, order, depths) && 0 < k < |order| && Expanded(children, order, depths, k)
    requires NearerFound(children, root, order, depths[k - 1]) && depths[k] == depths[k - 1] + 1
    ensures NearerFound(children, root, order, depths[k])
  {
    forall c | Near(children, root, c, depths[k])
      ensures c in order
    {
      LevelFound(children, root, order, depths, k, depths[k - 1], c);
    }
  }

  /** When everything found has been expanded, everything within the depth bound has been found. */
  lemma {:induction false} AllFound(children: Children, root: Control, order: seq<Control>, depths: seq<nat>, d: nat)
    requires Found(children, root, order, depths) && Expanded(children, order, depths, |order|)
    requires d <= MAX_CONTEXT_SUBTREE_DEPTH
    ensures NearerFound(children, root, order, d)
  {
    if d == 0 {
      assert order[0] in order;
    } else {
      AllFound(children, root, order, depths, d - 1);
      forall c | Near(children, root, c, d)
        ensures c in order
      {
        LevelFound(children, root, order, depths, |order|, d - 1, c);
      }
    }
  }

  /** A child of the front control that has not been seen lies one level deeper. */
  lemma {:induction false} NewChild(children: Children, root: Control, order: seq<Control>, parent: Control, d: nat, c: Control)
    requires Near(children, root, parent, d) && Edge(children, parent, c)
    requires NearerFound(children, root, order, d) && c !in order
    ensures AtDepth(children, root, c, d + 1)
  {
  }

  lemma {:induction false} FoundOneMore(children: Children, root: Control, order: seq<Control>, depths: seq<nat>, c: Control,
                                        d: nat)
    requires Found(children, root, order, depths) && AtDepth(children, root, c, d) && c !in order
    requires depths[|depths| - 1] <= d <= MAX_CONTEXT_SUBTREE_DEPTH
    ensures Found(children, root, order + [c], depths + [d])
  {
    StillDistinct(order, c);
    StillAscending(depths, d);
  }

  lemma {:induction false} StillDistinct(order: seq<Control>, c: Control)
    requires Distinct(order) && c !in order
    ensures Distinct(order + [c])
  {
  }

  lemma {:induction false} StillAscending(depths: seq<nat>, d: nat)
    requires depths != [] && Ascending(depths) && depths[|depths| - 1] <= d
    ensures Ascending(depths + [d])
  {
  }

  lemma {:induction false} StillExpanded(children: Children, order: seq<Control>, depths: seq<nat>, k: nat, c: Control, d: nat)
    requires |order| == |depths| && k <= |order| && Expanded(children, order, depths, k)
    ensures Expanded(children, order + [c], depths + [d], k)
  {
  }

  /** What a search returns: controls without the root or repeats, nearest first, at most six edges away. */
  ghost predicate IsSearchResult(children: Children, root: Control, r: seq<Control>) {
    && |r| <= MAX_CONTEXT_SUBTREE_CONTROLS && root !in r
    && Distinct(r)
    && (forall c | c in r :: Near(children, root, c, MAX_CONTEXT_SUBTREE_DEPTH))
    && (forall i, j | 0 <= i < j < |r| ::
          Near(children, root, r[i], MAX_CONTEXT_SUBTREE_DEPTH) && Near(children, root, r[j], MAX_CONTEXT_SUBTREE_DEPTH)
          && Depth(children, root, r[i], MAX_CONTEXT_SUBTREE_DEPTH) <= Depth(children, root, r[j], MAX_CONTEXT_SUBTREE_DEPTH))
  }

  lemma {:induction false} FoundIsResult(children: Children, root: Control, order: seq<Control>, depths: seq<nat>)
    requires Found(children, root, order, depths) && |order| <= MAX_CONTEXT_SUBTREE_CONTROLS + 1
    ensures IsSearchResult(children, root, order[1..])
  {
    forall i | 0 <= i < |order|
      ensures Near(children, root, order[i], MAX_CONTEXT_SUBTREE_DEPTH)
      ensures Depth(children, root, order[i], MAX_CONTEXT_SUBTREE_DEPTH) == depths[i]
    {
      NearGrows(children, root, depths[i], MAX_CONTEXT_SUBTREE_DEPTH);
      OneDepth(children, root, order[i], depths[i], Depth(children, root, order[i], MAX_CONTEXT_SUBTREE_DEPTH));
    }
  }

  /** Everything nearer than the deepest found control has been found. */
  ghost predicate BreadthFirst(children: Children, root: Control, order: seq<Control>, depths: seq<nat>)
    requires |order| == |depths| > 0
  {
    depths[|depths| - 1] > 0 ==> NearerFound(children, root, order, depths[|depths| - 1] - 1)
  }

  /** What the loop keeps while `k` controls have been taken from the queue. */
  ghost predicate Searching(children: Children, root: Control, order: seq<Control>, depths: seq<nat>, queue: seq<(Control, nat)>,
                      k: nat)
    requires |order| == |depths| > 0
  {
    && k <= |order| && Waiting(queue, order, depths, k) && Expanded(children, order, depths, k)
    && if k == 0 then |order| == 1
       else NearerFound(children, root, order, depths[k - 1]) && depths[|depths| - 1] <= depths[k - 1] + 1
  }

  lemma {:induction false} FrontLevelFound(children: Children, root: Control, order: seq<Control>, depths: seq<nat>,
                                           queue: seq<(Control, nat)>, k: nat)
    requires Found(children, root, order, depths) && Searching(children, root, order, depths, queue, k) && queue != []
    ensures NearerFound(children, root, order, depths[k]) && depths[|depths| - 1] <= depths[k] + 1
  {
    if k == 0 {
      assert root in order;
    } else if depths[k] > depths[k - 1] {
      assert depths[k] <= depths[|depths| - 1];
      NextLevelFound(children, root, order, depths, k);
    }
  }

  /** The children of the front control, up to child `j`. */
  predicate Looked(children: Children, order: seq<Control>, current: Control, j: nat) {
    j <= |children(current)| && forall i | 0 <= i < j && children(current)[i].Some? :: children(current)[i].value in order
  }

  lemma {:induction false} ExpandedFront(children: Children, order: seq<Control>, depths: seq<nat>, k: nat)
    requires |order| == |depths| && k < |order| && Expanded(children, order, depths, k)
    requires depths[k] < MAX_CONTEXT_SUBTREE_DEPTH ==> Looked(children, order, order[k], |children(order[k])|)
    ensures Expanded(children, order, depths, k + 1)
  {
  }

  /** What the inner loop keeps at child `j` of the control at position `k`. */
  ghost predicate Expanding(children: Children, root: Control, order: seq<Control>, depths: seq<nat>, queue: seq<(Control, nat)>,
                      k: nat, j: nat)
  {
    && Found(children, root, order, depths) && k < |order| && depths[k] < MAX_CONTEXT_SUBTREE_DEPTH
    && Waiting(queue, order, depths, k + 1) && Expanded(children, order, depths, k)
    && NearerFound(children, root, order, depths[k]) && depths[|depths| - 1] <= depths[k] + 1
    && BreadthFirst(children, root, order, depths) && Looked(children, order, order[k], j)
  }

  lemma {:induction false} ExpandingStarts(children: Children, root: Control, order: seq<Control>, depths: seq<nat>,
                                           queue: seq<(Control, nat)>, k: nat)
    requires Found(children, root, order, depths) && BreadthFirst(children, root, order, depths)
    requires Searching(children, root, order, depths, queue, k) && queue != [] && depths[k] < MAX_CONTEXT_SUBTREE_DEPTH
    ensures Expanding(children, root, order, depths, queue[1..], k, 0)
  {
    FrontLevelFound(children, root, order, depths, queue, k);
  }

  lemma {:induction false} ExpandingEnds(children: Children, root: Control, order: seq<Control>, depths: seq<nat>,
                                         queue: seq<(Control, nat)>, k: nat)
    requires k < |order| && Expanding(children, root, order, depths, queue, k, |children(order[k])|)
    ensures Searching(children, root, order, depths, queue, k + 1)
  {
    ExpandedFront(children, order, depths, k);
  }

  lemma {:induction false} FrontNotExpanded(children: Children, root: Control, order: seq<Control>, depths: seq<nat>,
                                            queue: seq<(Control, nat)>, k: nat)
    requires Found(children, root, order, depths)
    requires Searching(children, root, order, depths, queue, k) && queue != [] && depths[k] >= MAX_CONTEXT_SUBTREE_DEPTH
    ensures Searching(children, root, order, depths, queue[1..], k + 1)
  {
    FrontLevelFound(children, root, order, depths, queue, k);
    ExpandedFront(children, order, depths, k);
  }

  lemma {:induction false} ChildSkipped(children: Children, root: Control, order: seq<Control>, depths: seq<nat>,
                                        queue: seq<(Control, nat)>, k: nat, j: nat)
    requires Expanding(children, root, order, depths, queue, k, j) && j < |children(order[k])|
    requires children(order[k])[j].Some? ==> children(order[k])[j].value in order
    ensures Expanding(children, root, order, depths, queue, k, j + 1)
  {
  }

  lemma {:induction false} MoreFound(children: Children, root: Control, order: seq<Control>, c: Control, d: nat)
    requires NearerFound(children, root, order, d)
    ensures NearerFound(children, root, order + [c], d)
  {
  }

  lemma {:induction false} ChildAppended(children: Children, root: Control, order: seq<Control>, depths: seq<nat>,
                                         queue: seq<(Control, nat)>, k: nat, j: nat, c: Control)
    requires Expanding(children, root, order, depths, queue, k, j) && j < |children(order[k])|
    requires children(order[k])[j] == Some(c) && c !in order
    ensures Expanding(children, root, order + [c], depths + [depths[k] + 1], queue + [(c, depths[k] + 1)], k, j + 1)
  {
    assert Near(children, root, order[k], depths[k]);
    NewChild(children, root, order, order[k], depths[k], c);
    FoundOneMore(children, root, order, depths, c, depths[k] + 1);
    StillExpanded(children, order, depths, k, c, depths[k] + 1);
    MoreFound(children, root, order, c, depths[k]);
    LookedOneMore(children, order, order[k], j, c);
    WaitingOneMore(queue, order, depths, k + 1, c, depths[k] + 1);
  }

  lemma {:induction false} WaitingOneMore(queue: seq<(Control, nat)>, order: seq<Control>, depths: seq<nat>, k: nat, c: Control,
                                          d: nat)
    requires |order| == |depths| && Waiting(queue, order, depths, k)
    ensures Waiting(queue + [(c, d)], order + [c], depths + [d], k)
  {
  }

  lemma {:induction false} LookedOneMore(children: Children, order: seq<Control>, current: Control, j: nat, c: Control)
    requires j < |children(current)| && children(current)[j] == Some(c) && Looked(children, order, current, j)
    ensures Looked(children, order + [c], current, j + 1)
  {
  }

  /** What the inner loop keeps, at child `j` of the control at position `k`. */
  ghost predicate Inner(children: Children, root: Control, order: seq<Control>, depths: seq<nat>, s: Search, k: nat, j: nat,
                        current: Control, depth: nat)
  {
    && Expanding(children, root, order, depths, s.queue, k, j) && current == order[k] && depth == depths[k]
    && order == [root] + s.descendants && s.visited == Contents(order)
    && |s.descendants| < MAX_CONTEXT_SUBTREE_CONTROLS
  }

  /** What the outer loop keeps; the queue is not used again once 64 controls have been found. */
  ghost predicate Outer(children: Children, root: Control, order: seq<Control>, depths: seq<nat>, s: Search, k: nat) {
    && Found(children, root, order, depths) && BreadthFirst(children, root, order, depths)
    && order == [root] + s.descendants && s.visited == Contents(order)
    && |s.descendants| <= MAX_CONTEXT_SUBTREE_CONTROLS
    && (|s.descendants| < MAX_CONTEXT_SUBTREE_CONTROLS ==> Searching(children, root, order, depths, s.queue, k))
  }

  datatype Search = Search(descendants: seq<Control>, queue: seq<(Control, nat)>, visited: set<Control>)

  /** A child that has not been seen is found, and waits unless it is the last one that fits. */
  function Take(s: Search, child: Control, depth: nat): Search {
    Search(s.descendants + [child],
           if |s.descendants| + 1 >= MAX_CONTEXT_SUBTREE_CONTROLS then s.queue else s.queue + [(child, depth)],
           s.visited + {child})
  }

  lemma {:induction false} InnerTakes(children: Children, root: Control, order: seq<Control>, depths: seq<nat>, s: Search,
                                      k: nat, j: nat, current: Control, depth: nat, child: Control)
    requires Inner(children, root, order, depths, s, k, j, current, depth) && j < |children(current)|
    requires children(current)[j] == Some(child) && child !in s.visited
    ensures var s' := Take(s, child, depth + 1);
            if |s'.descendants| < MAX_CONTEXT_SUBTREE_CONTROLS
            then Inner(children, root, order + [child], depths + [depth + 1], s', k, j + 1, current, depth)
            else Outer(children, root, order + [child], depths + [depth + 1], s', k + 1)
  {
    ChildAppended(children, root, order, depths, s.queue, k, j, child);
    assert [root] + (s.descendants + [child]) == order + [child];
    assert Contents(order + [child]) == Contents(order) + {child};
  }

  lemma {:induction false} InnerSkips(children: Children, root: Control, order: seq<Control>, depths: seq<nat>, s: Search,
                                      k: nat, j: nat, current: Control, depth: nat)
    requires Inner(children, root, order, depths, s, k, j, current, depth) && j < |children(current)|
    requires children(current)[j].Some? ==> children(current)[j].value in s.visited
    ensures Inner(children, root, order, depths, s, k, j + 1, current, depth)
  {
    ChildSkipped(children, root, order, depths, s.queue, k, j);
  }

  lemma {:induction false} InnerEnds(children: Children, root: Control, order: seq<Control>, depths: seq<nat>, s: Search,
                                     k: nat, current: Control, depth: nat)
    requires Inner(children, root, order, depths, s, k, |children(current)|, current, depth)
    ensures Outer(children, root, order, depths, s, k + 1)
  {
    ExpandingEnds(children, root, order, depths, s.queue, k);
  }

  /** The children from `j` on: the unseen ones are found, until 64 controls have been. */
  function TakeFrom(list: seq<Option<Control>>, j: nat, s: Search, depth: nat): Search
    decreases |list| - j
  {
    if j >= |list| || |s.descendants| >= MAX_CONTEXT_SUBTREE_CONTROLS then s
    else if list[j].None? || list[j].value in s.visited then TakeFrom(list, j + 1, s, depth)
    else TakeFrom(list, j + 1, Take(s, list[j].value, depth), depth)
  }

  lemma {:induction false} TakeFromKeeps(children: Children, root: Control, order: seq<Control>, depths: seq<nat>, s: Search,
                                         k: nat, j: nat, current: Control, depth: nat)
    returns (order': seq<Control>, depths': seq<nat>)
    requires Inner(children, root, order, depths, s, k, j, current, depth) && j <= |children(current)|
    ensures Outer(children, root, order', depths', TakeFrom(children(current), j, s, depth + 1), k + 1)
    decreases |children(current)| - j, 1
  {
    var list := children(current);
    if j == |list| {
      InnerEnds(children, root, order, depths, s, k, current, depth);
      order', depths' := order, depths;
    } else if list[j].None? || list[j].value in s.visited {
      InnerSkips(children, root, order, depths, s, k, j, current, depth);
      order', depths' := TakeFromKeeps(children, root, order, depths, s, k, j + 1, current, depth);
    } else {
      order', depths' := TakeOneKeeps(children, root, order, depths, s, k, j, current, depth);
    }
  }

  lemma {:induction false} TakeOneKeeps(children: Children, root: Control, order: seq<Control>, depths: seq<nat>, s: Search,
                                        k: nat, j: nat, current: Control, depth: nat)
    returns (order': seq<Control>, depths': seq<nat>)
    requires Inner(children, root, order, depths, s, k, j, current, depth) && j < |children(current)|
    requires children(current)[j].Some? && children(current)[j].value !in s.visited
    ensures Outer(children, root, order', depths', TakeFrom(children(current), j, s, depth + 1), k + 1)
    decreases |children(current)| - j, 0
  {
    var child := children(current)[j].value;
    var s' := Take(s, child, depth + 1);
    InnerTakes(children, root, order, depths, s, k, j, current, depth, child);
    order', depths' := order + [child], depths + [depth + 1];
    if |s'.descendants| < MAX_CONTEXT_SUBTREE_CONTROLS {
      order', depths' := TakeFromKeeps(children, root, order', depths', s', k, j + 1, current, depth);
    }
  }

  /** The inner loop. */
  method Expand(children: Children, current: Control, depth: nat, s: Search) returns (s': Search)
    requires |s.descendants| < MAX_CONTEXT_SUBTREE_CONTROLS
    ensures s' == TakeFrom(children(current), 0, s, depth + 1)
    ensures |s'.queue| - |s'.descendants| <= |s.queue| - |s.descendants|
  {
    s' := s;
    var list := children(current);
    for j := 0 to |list|
      invariant TakeFrom(list, j, s', depth + 1) == TakeFrom(list, 0, s, depth + 1)
      invariant |s'.queue| - |s'.descendants| == |s.queue| - |s.descendants|
      invariant |s'.descendants| < MAX_CONTEXT_SUBTREE_CONTROLS
    {
      if list[j].None? || list[j].value in s'.visited {
        continue;
      }
      s' := Take(s', list[j].value, depth + 1);
      if |s'.descendants| >= MAX_CONTEXT_SUBTREE_CONTROLS {
        return;
      }
    }
  }

  /** Everything nearer than `c` is the root or one of the list. */
  ghost predicate NearerIn(children: Children, root: Control, c: Control, list: seq<Control>) {
    forall x, d: nat :: AtDepth(children, root, c, d + 1) && Near(children, root, x, d) ==> x == root || x in list
  }

  lemma {:induction false} NearerThan(children: Children, root: Control, c: Control, depth: nat, last: nat, list: seq<Control>)
    requires AtDepth(children, root, c, depth) && depth <= last
    requires last > 0 ==> NearerFound(children, root, [root] + list, last - 1)
    ensures NearerIn(children, root, c, list)
  {
    forall x, d: nat | AtDepth(children, root, c, d + 1) && Near(children, root, x, d)
      ensures x == root || x in list
    {
      OneDepth(children, root, c, depth, d + 1);
      NearGrows(children, root, d, last - 1);
    }
  }

  /** The result is everything within the depth bound but the root. */
  ghost predicate Exhaustive(children: Children, root: Control, r: seq<Control>) {
    forall c :: c in r <==> c != root && Near(children, root, c, MAX_CONTEXT_SUBTREE_DEPTH)
  }

  /** Everything nearer than a control of the result is in the result, but for the root. */
  ghost predicate NearestFirst(children: Children, root: Control, r: seq<Control>) {
    forall c | c in r :: NearerIn(children, root, c, r)
  }

  lemma {:induction false} EndsNearestFirst(children: Children, root: Control, order: seq<Control>, depths: seq<nat>,
                                            r: seq<Control>)
    requires Found(children, root, order, depths) && BreadthFirst(children, root, order, depths) && order == [root] + r
    ensures NearestFirst(children, root, r)
  {
    forall c | c in r
      ensures NearerIn(children, root, c, r)
    {
      var i :| 0 <= i < |r| && r[i] == c;
      assert order[i + 1] == c;
      NearerThan(children, root, c, depths[i + 1], depths[|depths| - 1], r);
    }
  }

  lemma {:induction false} EndsExhaustive(children: Children, root: Control, order: seq<Control>, depths: seq<nat>, r: seq<Control>)
    requires Found(children, root, order, depths) && Expanded(children, order, depths, |order|) && order == [root] + r
    requires IsSearchResult(children, root, r)
    ensures Exhaustive(children, root, r)
  {
    AllFound(children, root, order, depths, MAX_CONTEXT_SUBTREE_DEPTH);
  }

  lemma {:induction false} OuterEnds(children: Children, root: Control, order: seq<Control>, depths: seq<nat>, s: Search, k: nat)
    requires Outer(children, root, order, depths, s, k)
    requires s.queue == [] || |s.descendants| >= MAX_CONTEXT_SUBTREE_CONTROLS
    ensures IsSearchResult(children, root, s.descendants) && NearestFirst(children, root, s.descendants)
    ensures |s.descendants| < MAX_CONTEXT_SUBTREE_CONTROLS ==> Exhaustive(children, root, s.descendants)
  {
    assert order[1..] == s.descendants;
    FoundIsResult(children, root, order, depths);
    EndsNearestFirst(children, root, order, depths, s.descendants);
    if |s.descendants| < MAX_CONTEXT_SUBTREE_CONTROLS {
      EndsExhaustive(children, root, order, depths, s.descendants);
    }
  }

  lemma {:induction false} OuterTakesFront(children: Children, root: Control, order: seq<Control>, depths: seq<nat>, s: Search,
                                           k: nat)
    requires Outer(children, root, order, depths, s, k)
    requires s.queue != [] && |s.descendants| < MAX_CONTEXT_SUBTREE_CONTROLS
    ensures var s' := s.(queue := s.queue[1..]);
            if s.queue[0].1 < MAX_CONTEXT_SUBTREE_DEPTH
            then Inner(children, root, order, depths, s', k, 0, s.queue[0].0, s.queue[0].1)
            else Outer(children, root, order, depths, s', k + 1)
  {
    if s.queue[0].1 < MAX_CONTEXT_SUBTREE_DEPTH {
      ExpandingStarts(children, root, order, depths, s.queue, k);
    } else {
      FrontNotExpanded(children, root, order, depths, s.queue, k);
    }
  }

  lemma {:induction false} OuterStarts(children: Children, root: Control)
    ensures Outer(children, root, [root], [0], Search([], [(root, 0)], {root}), 0)
  {
    assert [root] + [] == [root];
  }

  /** The loop of the search, with everything that holds when it ends. */
  method Explore(children: Children, root: Control) returns (s: Search, ghost order: seq<Control>, ghost depths: seq<nat>,
                                                             ghost k: nat)
    ensures Outer(children, root, order, depths, s, k)
    ensures s.queue == [] || |s.descendants| >= MAX_CONTEXT_SUBTREE_CONTROLS
  {
    OuterStarts(children, root);
    s := Search([], [(root, 0)], {root});
    order, depths, k := [root], [0], 0;
    while s.queue != [] && |s.descendants| < MAX_CONTEXT_SUBTREE_CONTROLS
      invariant Outer(children, root, order, depths, s, k) && |s.descendants| <= MAX_CONTEXT_SUBTREE_CONTROLS
      decreases |s.queue| + MAX_CONTEXT_SUBTREE_CONTROLS - |s.descendants|
    {
      OuterTakesFront(children, root, order, depths, s, k);
      var (current, depth) := s.queue[0];
      s := s.(queue := s.queue[1..]);
      if depth < MAX_CONTEXT_SUBTREE_DEPTH {
        order, depths := TakeFromKeeps(children, root, order, depths, s, k, 0, current, depth);
        s := Expand(children, current, depth, s);
      }
      k := k + 1;
    }
  }

  /**
   * The search stops on cyclic graphs. When it returns fewer than 64 controls these are all within six edges; when it
   * is cut short it has still returned every control nearer than the last one.
   */
  method BoundedDescendants(children: Children, root: Control) returns (descendants: seq<Control>)
    ensures IsSearchResult(children, root, descendants) && NearestFirst(children, root, descendants)
    ensures |descendants| < MAX_CONTEXT_SUBTREE_CONTROLS ==> Exhaustive(children, root, descendants)
  {
    var s;
    ghost var order, depths, k;
    s, order, depths, k := Explore(children, root);
    OuterEnds(children, root, order, depths, s, k);
    descendants := s.descendants;
  }

  // ---------------------------------------------------------------- ancestors and candidates

  /** The first `n` controls of the parent chain. A chain that closes is cut at its first repeat. */
  function Ancestors(parent: Parent, control: Option<Control>, n: nat, before: set<Control>): seq<Control>
    decreases n
  {
    if control.None? || n == 0 || control.value in before then []
    else [control.value] + Ancestors(parent, parent(control.value), n - 1, before + {control.value})
  }

  /** `_append_unique`. */
  function AppendedOne(controls: seq<Control>, c: Control): seq<Control> {
    if c in controls then controls else controls + [c]
  }

  function Appended(controls: seq<Control>, more: seq<Control>): seq<Control>
    decreases |more|
  {
    if more == [] then controls else Appended(AppendedOne(controls, more[0]), more[1..])
  }

  /** Appending keeps the controls and their order, adds each new control once and adds no other. */
  lemma {:induction false} AppendedIsUnion(controls: seq<Control>, more: seq<Control>)
    requires Distinct(controls)
    ensures controls <= Appended(controls, more) && Distinct(Appended(controls, more))
    ensures forall c :: c in Appended(controls, more) <==> c in controls || c in more
    decreases |more|
  {
    if more != [] {
      assert more == [more[0]] + more[1..];
      AppendedIsUnion(AppendedOne(controls, more[0]), more[1..]);
    }
  }

  lemma {:induction false} AncestorsAreDistinct(parent: Parent, control: Option<Control>, n: nat, before: set<Control>)
    ensures |Ancestors(parent, control, n, before)| <= n && Distinct(Ancestors(parent, control, n, before))
    ensures forall c | c in Ancestors(parent, control, n, before) :: c !in before
    ensures forall i | 0 < i < |Ancestors(parent, control, n, before)| ::
              parent(Ancestors(parent, control, n, before)[i - 1]) == Some(Ancestors(parent, control, n, before)[i])
    decreases n
  {
    if control.Some? && n > 0 && control.value !in before {
      AncestorsAreDistinct(parent, parent(control.value), n - 1, before + {control.value});
    }
  }

  /** What `_append_control_chain` appends. */
  function Chain(parent: Parent, control: Option<Control>): seq<Control> {
    Ancestors(parent, control, MAX_ANCESTOR_DEPTH + 1, {})
  }

  method AppendControlChain(controls: seq<Control>, control: Option<Control>, parent: Parent) returns (r: seq<Control>)
    ensures r == Appended(controls, Chain(parent, control))
  {
    r := controls;
    var current, localSeen := control, {};
    var depth := 0;
    while current.Some? && depth <= MAX_ANCESTOR_DEPTH
      invariant depth <= MAX_ANCESTOR_DEPTH + 1
      invariant Appended(r, Ancestors(parent, current, MAX_ANCESTOR_DEPTH + 1 - depth, localSeen))
             == Appended(controls, Chain(parent, control))
    {
      var c := current.value;
      if c in localSeen {
        return;
      }
      ghost var rest := Ancestors(parent, parent(c), MAX_ANCESTOR_DEPTH - depth, localSeen + {c});
      assert ([c] + rest)[1..] == rest;
      localSeen := localSeen + {c};
      r := AppendedOne(r, c);
      current := parent(c);
      depth := depth + 1;
    }
  }

  /**
   * The candidates: the ancestors of the control at the point, of the focused one and of the window, then the subtree
   * that a search below the window finds.
   */
  method CandidateControls(children: Children, parent: Parent, atPoint: Option<Control>, focused: Option<Control>,
                           window: Option<Control>, contextRich: bool)
    returns (controls: seq<Control>)
    ensures exists found ::
              && controls == Candidates(parent, atPoint, focused, window, found)
              && (!contextRich || window.None? ==> found == [])
              && (contextRich && window.Some? ==> IsSubtree(children, window.value, found))
  {
    controls := AppendControlChain([], atPoint, parent);
    controls := AppendControlChain(controls, focused, parent);
    controls := AppendControlChain(controls, window, parent);
    ghost var found := [];
    if contextRich && window.Some? {
      var subtree := BoundedDescendants(children, window.value);
      controls := AppendAll(controls, subtree);
      found := subtree;
    }
    assert controls == Candidates(parent, atPoint, focused, window, found);
  }

  /** What a search below the root may return. */
  ghost predicate IsSubtree(children: Children, root: Control, found: seq<Control>) {
    && IsSearchResult(children, root, found) && NearestFirst(children, root, found)
    && (|found| < MAX_CONTEXT_SUBTREE_CONTROLS ==> Exhaustive(children, root, found))
  }

  method AppendAll(controls: seq<Control>, more: seq<Control>) returns (r: seq<Control>)
    ensures r == Appended(controls, more)
  {
    r := controls;
    for k := 0 to |more|
      invariant Appended(r, more[k..]) == Appended(controls, more)
    {
      assert more[k..][1..] == more[k + 1..];
      r := AppendedOne(r, more[k]);
    }
  }

  function Candidates(parent: Parent, atPoint: Option<Control>, focused: Option<Control>, window: Option<Control>,
                      found: seq<Control>): seq<Control> {
    Appended(Appended(Appended(Appended([], Chain(parent, atPoint)), Chain(parent, focused)), Chain(parent, window)), found)
  }

  /** No candidate repeats, and the candidates are exactly the controls of the three chains and of the subtree. */
  lemma {:induction false} CandidatesAreDistinct(parent: Parent, atPoint: Option<Control>, focused: Option<Control>,
                                                 window: Option<Control>, found: seq<Control>)
    ensures Distinct(Candidates(parent, atPoint, focused, window, found))
    ensures forall c :: c in Candidates(parent, atPoint, focused, window, found) <==>
              c in Chain(parent, atPoint) || c in Chain(parent, focused) || c in Chain(parent, window) || c in found
  {
    var a := Appended([], Chain(parent, atPoint));
    var b := Appended(a, Chain(parent, focused));
    AppendedIsUnion([], Chain(parent, atPoint));
    AppendedIsUnion(a, Chain(parent, focused));
    AppendedIsUnion(b, Chain(parent, window));
    AppendedIsUnion(Appended(b, Chain(parent, window)), found);
  }

  /** The parent chain ends because it is long enough, has no parent, or closes. */
  lemma {:induction false} AncestorsEnd(parent: Parent, control: Option<Control>, n: nat, before: set<Control>)
    ensures var r := Ancestors(parent, control, n, before);
            && (r != [] ==> control == Some(r[0]))
            && (|r| == n
                || var next := if r == [] then control else parent(r[|r| - 1]);
                   next.None? || next.value in before || next.value in r)
    decreases n
  {
    if control.Some? && n > 0 && control.value !in before {
      var rest := Ancestors(parent, parent(control.value), n - 1, before + {control.value});
      AncestorsEnd(parent, parent(control.value), n - 1, before + {control.value});
      var r := [control.value] + rest;
      assert Ancestors(parent, control, n, before) == r && control.value in r;
      if rest != [] {
        assert r[|r| - 1] == rest[|rest| - 1] && forall c | c in rest :: c in r;
      }
    }
  }

  /** The chain starts with the control and goes on from parent to parent, up to nine controls or its end. */
  lemma {:induction false} ChainIsExact(parent: Parent, control: Option<Control>)
    ensures var chain := Chain(parent, control);
            && |chain| <= 9 && Distinct(chain) && (chain == [] <==> control.None?)
            && (chain != [] ==>
                  && control == Some(chain[0])
                  && (forall i | 0 < i < |chain| :: parent(chain[i - 1]) == Some(chain[i]))
                  && (|chain| == 9 || parent(chain[|chain| - 1]).None? || parent(chain[|chain| - 1]).value in chain))
  {
    AncestorsAreDistinct(parent, control, MAX_ANCESTOR_DEPTH + 1, {});
    AncestorsEnd(parent, control, MAX_ANCESTOR_DEPTH + 1, {});
  }

  // ---------------------------------------------------------------- the order of the candidates

  function FirstIndex(s: seq<Control>, c: Control): (i: nat)
    ensures i <= |s|
    ensures i < |s| ==> s[i] == c
    ensures forall j | 0 <= j < i :: s[j] != c
  {
    if s == [] || s[0] == c then 0 else 1 + FirstIndex(s[1..], c)
  }

  lemma {:induction false} FirstIndexOfMore(s: seq<Control>, x: Control, c: Control)
    ensures c in s ==> FirstIndex(s + [x], c) == FirstIndex(s, c) < |s|
    ensures x !in s ==> FirstIndex(s + [x], x) == |s|
  {
    var more := s + [x];
    var i, j := FirstIndex(s, c), FirstIndex(more, c);
    if c in s {
      var k :| 0 <= k < |s| && s[k] == c;
      assert more[i] == c && more[k] == c;
      assert j < |s| ==> s[j] == c;
    }
    assert more[|s|] == x && forall k | 0 <= k < |s| :: more[k] == s[k] && s[k] in s;
  }

  lemma {:induction false} AppendedTwice(controls: seq<Control>, a: seq<Control>, b: seq<Control>)
    ensures Appended(Appended(controls, a), b) == Appended(controls, a + b)
    decreases |a|
  {
    if a == [] {
      assert a + b == b;
    } else {
      assert (a + b)[0] == a[0] && (a + b)[1..] == a[1..] + b;
      AppendedTwice(AppendedOne(controls, a[0]), a[1..], b);
    }
  }

  lemma {:induction false} AppendedLast(controls: seq<Control>, more: seq<Control>, c: Control)
    ensures Appended(controls, more + [c]) == AppendedOne(Appended(controls, more), c)
  {
    AppendedTwice(controls, more, [c]);
    assert [c][1..] == [];
  }

  /** The controls come in the order in which they first occur. */
  predicate ByFirstIndex(controls: seq<Control>, all: seq<Control>) {
    forall i, j | 0 <= i < j < |controls| :: FirstIndex(all, controls[i]) < FirstIndex(all, controls[j])
  }

  lemma {:induction false} AppendedInOrder(all: seq<Control>)
    ensures ByFirstIndex(Appended([], all), all) && forall c :: c in Appended([], all) <==> c in all
  {
    if all != [] {
      var front, last := all[..|all| - 1], all[|all| - 1];
      var r := Appended([], front);
      assert all == front + [last];
      AppendedInOrder(front);
      AppendedLast([], front, last);
      var r' := Appended([], all);
      forall i, j | 0 <= i < j < |r'|
        ensures FirstIndex(all, r'[i]) < FirstIndex(all, r'[j])
      {
        assert r'[i] == r[i] && r[i] in r;
        FirstIndexOfMore(front, last, r[i]);
        if j < |r| {
          assert r'[j] == r[j] && r[j] in r;
          FirstIndexOfMore(front, last, r[j]);
        }
      }
    }
  }

  /**
   * The candidates are ordered by where they come first among the controls around the point, those around the focus, those
   * around the window and those below the window.
   */
  lemma {:induction false} CandidatesComeInOrder(parent: Parent, atPoint: Option<Control>, focused: Option<Control>,
                                                 window: Option<Control>, found: seq<Control>)
    ensures ByFirstIndex(Candidates(parent, atPoint, focused, window, found),
                         Chain(parent, atPoint) + Chain(parent, focused) + Chain(parent, window) + found)
  {
    var a, b, c := Chain(parent, atPoint), Chain(parent, focused), Chain(parent, window);
    AppendedTwice([], a, b);
    AppendedTwice([], a + b, c);
    AppendedTwice([], a + b + c, found);
    AppendedInOrder(a + b + c + found);
  }
}
