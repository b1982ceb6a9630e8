/**
 * The array-backed binary min-heap of tasks
 * (packages/scheduler/src/new.SchedulerMinHeap.ts).
 * Tasks are ordered by `sortIndex`, ties broken by `id`.
 */
module MinHeap {
  import opened Schedule

  /** `a` comes strictly before `b`: lexicographic order on `(sortIndex, id)`. */
  predicate Precedes(a: Task, b: Task) {
    a.sortIndex < b.sortIndex || (a.sortIndex == b.sortIndex && a.id < b.id)
  }

  /** The source's comparator: the difference of the sort indices, or of the ids on a tie. */
  function Compare(a: Task, b: Task): (r: int)
    ensures r < 0 <==> Precedes(a, b)
    ensures r > 0 <==> Precedes(b, a)
    ensures r == 0 <==> a.sortIndex == b.sortIndex && a.id == b.id
  {
    var diff := a.sortIndex - b.sortIndex;
    if diff != 0 then diff else a.id - b.id
  }

  /** Among tasks with pairwise distinct ids, `Precedes` is a strict total order. */
  lemma PrecedesIsStrictTotalOrder(a: Task, b: Task, c: Task)
    ensures !Precedes(a, a)
    ensures Precedes(a, b) ==> !Precedes(b, a)
    ensures Precedes(a, b) && Precedes(b, c) ==> Precedes(a, c)
    ensures a.id != b.id ==> Precedes(a, b) || Precedes(b, a)
  {
  }

  function Parent(i: nat): nat
    requires i > 0
  {
    (i - 1) / 2
  }

  /** The heap property: no element precedes its parent. */
  ghost predicate IsHeap(s: seq<Task>) {
    forall i :: 0 < i < |s| ==> !Precedes(s[i], s[Parent(i)])
  }

  /**
   * `s` is a heap except that the element at `k` may precede its parent;
   * the parent of `k` does not come after `k`'s children.
   */
  ghost predicate HeapExceptUp(s: seq<Task>, k: nat) {
    && (forall i :: 0 < i < |s| && i != k ==> !Precedes(s[i], s[Parent(i)]))
    && (k > 0 ==> forall i :: 0 < i < |s| && Parent(i) == k ==> !Precedes(s[i], s[Parent(k)]))
  }

  /**
   * `s` is a heap except that the children of `k` may precede it;
   * they do not precede `k`'s parent.
   */
  ghost predicate HeapExceptDown(s: seq<Task>, k: nat) {
    && (forall i :: 0 < i < |s| && Parent(i) != k ==> !Precedes(s[i], s[Parent(i)]))
    && (k > 0 ==> forall i :: 0 < i < |s| && Parent(i) == k ==> !Precedes(s[i], s[Parent(k)]))
  }

  /** The indices from `i` up to the root: `i` and its ancestors. */
  ghost function RootPath(i: nat): set<nat>
    decreases i
  {
    {i} + if i > 0 then RootPath(Parent(i)) else {}
  }

  lemma {:induction false} ParentOnRootPath(k: nat, i: nat)
    requires k > 0 && k in RootPath(i)
    ensures Parent(k) in RootPath(i)
    decreases i
  {
    if k != i {
      ParentOnRootPath(k, Parent(i));
    }
  }

  /** In a heap no element precedes the one at index 0. */
  lemma {:induction false} RootIsMinimum(s: seq<Task>, i: nat)
    requires IsHeap(s) && i < |s|
    ensures !Precedes(s[i], s[0])
    decreases i
  {
    if i > 0 {
      RootIsMinimum(s, Parent(i));
    }
  }

  lemma RootIsMinimumAll(s: seq<Task>)
    requires IsHeap(s)
    ensures forall i :: 0 <= i < |s| ==> !Precedes(s[i], s[0])
  {
    forall i | 0 <= i < |s| ensures !Precedes(s[i], s[0]) {
      RootIsMinimum(s, i);
    }
  }

  /**
   * The step of `siftDown` at `index` (new.SchedulerMinHeap.ts:47-68): the child
   * the displaced `node` changes place with, or `None` when no child precedes it.
   */
  function SiftDownTarget(s: seq<Task>, index: nat, node: Task): (r: Option<nat>)
    requires (index + 1) * 2 - 1 < |s|
    ensures r.Some? ==> r.value < |s| && (r.value == 2 * index + 1 || r.value == 2 * index + 2)
    ensures r.Some? ==> Precedes(s[r.value], node)
    ensures r.Some? ==> forall c :: 2 * index + 1 <= c <= 2 * index + 2 && c < |s| ==> !Precedes(s[c], s[r.value])
    ensures r == Some(2 * index + 2) ==> Precedes(s[2 * index + 2], s[2 * index + 1])
    ensures r.None? <==> forall c :: 2 * index + 1 <= c <= 2 * index + 2 && c < |s| ==> !Precedes(s[c], node)
  {
    var leftIndex := (index + 1) * 2 - 1;
    var rightIndex := leftIndex + 1;
    if Compare(s[leftIndex], node) < 0 then
      if rightIndex < |s| && Compare(s[rightIndex], s[leftIndex]) < 0 then Some(rightIndex)
      else Some(leftIndex)
    else if rightIndex < |s| && Compare(s[rightIndex], node) < 0 then Some(rightIndex)
    else None
  }

  /** Exchanging `node` at `k` with a parent that it precedes keeps the sift-up invariant. */
  lemma SiftUpStep(s: seq<Task>, k: nat, node: Task)
    requires 0 < k < |s| && s[k] == node && HeapExceptUp(s, k) && Precedes(node, s[Parent(k)])
    ensures HeapExceptUp(s[Parent(k) := node][k := s[Parent(k)]], Parent(k))
    ensures multiset(s[Parent(k) := node][k := s[Parent(k)]]) == multiset(s)
  {
    var p := Parent(k);
    var t := s[p := node][k := s[p]];
    forall i | 0 < i < |t| && i != p
      ensures !Precedes(t[i], t[Parent(i)])
    {
      if i == k {
      } else if Parent(i) == k {
      } else if Parent(i) == p {
        assert t[i] == s[i];
      } else {
        assert t[i] == s[i];
      }
    }
    if p > 0 {
      forall i | 0 < i < |t| && Parent(i) == p
        ensures !Precedes(t[i], t[Parent(p)])
      {
        assert t[Parent(p)] == s[Parent(p)];
      }
    }
  }

  /**
   * The state of `siftUp` started at `i` on `s0`: `node` is at `index`, the
   * heap property holds except above `index`, and only the positions in
   * `touched`, all on the root path of `i`, differ from `s0`.
   */
  ghost predicate SiftingUp(s0: seq<Task>, s: seq<Task>, node: Task, i: nat, index: nat, touched: set<nat>) {
    && index < |s| && s[index] == node
    && HeapExceptUp(s, index)
    && |s| == |s0| && multiset(s) == multiset(s0)
    && index in RootPath(i) && touched <= RootPath(i)
    && (forall k :: 0 <= k < |s| && k !in touched ==> s[k] == s0[k])
  }

  lemma SiftingUpStep(s0: seq<Task>, s: seq<Task>, node: Task, i: nat, index: nat, touched: set<nat>)
    requires SiftingUp(s0, s, node, i, index, touched)
    requires index > 0 && Precedes(node, s[Parent(index)])
    ensures SiftingUp(s0, s[Parent(index) := node][index := s[Parent(index)]], node, i, Parent(index),
                      touched + {index, Parent(index)})
  {
    var p := Parent(index);
    var t := s[p := node][index := s[p]];
    ParentOnRootPath(index, i);
    SiftUpStep(s, index, node);
    assert p < index && t[p] == node;
    SwapKeepsRest(s0, s, touched, p, index, node, s[p]);
  }

  /** Writing two positions leaves every position outside `touched` and those two as in `s0`. */
  lemma SwapKeepsRest(s0: seq<Task>, s: seq<Task>, touched: set<nat>, a: nat, b: nat, x: Task, y: Task)
    requires a < |s| && b < |s| && |s| == |s0|
    requires forall k :: 0 <= k < |s| && k !in touched ==> s[k] == s0[k]
    ensures forall k :: 0 <= k < |s| && k !in touched + {a, b} ==> s[a := x][b := y][k] == s0[k]
  {
  }

  lemma SiftingUpDone(s0: seq<Task>, s: seq<Task>, node: Task, i: nat, index: nat, touched: set<nat>)
    requires SiftingUp(s0, s, node, i, index, touched)
    requires index > 0 ==> !Precedes(node, s[Parent(index)])
    ensures IsHeap(s) && |s| == |s0| && multiset(s) == multiset(s0)
    ensures forall k :: 0 <= k < |s| && k !in RootPath(i) ==> s[k] == s0[k]
  {
  }

  /** Exchanging the element at `k` with the child `c` that `SiftDownTarget` picks keeps the sift-down invariant. */
  lemma SiftDownStep(s: seq<Task>, k: nat, c: nat, node: Task)
    requires k < |s| && s[k] == node && HeapExceptDown(s, k)
    requires c < |s| && (c == 2 * k + 1 || c == 2 * k + 2) && Precedes(s[c], node)
    requires forall j :: 2 * k + 1 <= j <= 2 * k + 2 && j < |s| ==> !Precedes(s[j], s[c])
    ensures HeapExceptDown(s[k := s[c]][c := node], c)
    ensures multiset(s[k := s[c]][c := node]) == multiset(s)
  {
    SiftDownStepAbove(s, k, c, node);
    var t := s[k := s[c]][c := node];
    forall i | 0 < i < |t| && Parent(i) == c
      ensures !Precedes(t[i], t[Parent(c)])
    {
      assert i != k && i != c;
      assert Parent(c) == k;
    }
  }

  /** After the swap, every pair outside the moved node's new children is in order. */
  lemma SiftDownStepAbove(s: seq<Task>, k: nat, c: nat, node: Task)
    requires k < |s| && s[k] == node && HeapExceptDown(s, k)
    requires c < |s| && (c == 2 * k + 1 || c == 2 * k + 2) && Precedes(s[c], node)
    requires forall j :: 2 * k + 1 <= j <= 2 * k + 2 && j < |s| ==> !Precedes(s[j], s[c])
    ensures var t := s[k := s[c]][c := node];
      forall i :: 0 < i < |t| && Parent(i) != c ==> !Precedes(t[i], t[Parent(i)])
  {
    var t := s[k := s[c]][c := node];
    forall i | 0 < i < |t| && Parent(i) != c
      ensures !Precedes(t[i], t[Parent(i)])
    {
      if i == c {
      } else if i == k {
        assert Parent(c) == k;
      } else if Parent(i) == k {
      } else {
        assert t[i] == s[i];
      }
    }
  }

  /** A JS array used as a heap; `items` is its contents. */
  class Heap {
    var items: seq<Task>

    ghost predicate Valid()
      reads this
    {
      IsHeap(items)
    }

    constructor ()
      ensures Valid() && items == []
    {
      items := [];
    }

    /** `peek`: the first element, or `None` for an empty heap. */
    function Peek(): (r: Option<Task>)
      reads this
      ensures r.None? <==> |items| == 0
      ensures r.Some? ==> r.value == items[0]
    {
      if |items| == 0 then None else Some(items[0])
    }

    /** `push`: append `node`, then sift it up from the last slot. */
    method Push(node: Task)
      requires Valid()
      modifies this
      ensures Valid()
      ensures |items| == |old(items)| + 1
      ensures multiset(items) == multiset(old(items)) + multiset{node}
    {
      var index := |items|;
      items := items + [node];
      SiftUp(node, index);
    }

    /**
     * `pop`: remove and return the first element; move the last element into
     * the vacated first slot and sift it down.
     */
    method Pop() returns (r: Option<Task>)
      requires Valid()
      modifies this
      ensures Valid()
      ensures old(items) == [] ==> r.None? && items == []
      ensures old(items) != [] ==> r == Some(old(items)[0])
      ensures old(items) != [] ==> |items| == |old(items)| - 1
      ensures old(items) != [] ==> multiset(items) == multiset(old(items)) - multiset{old(items)[0]}
      ensures r.Some? ==> forall t :: t in old(items) ==> !Precedes(t, r.value)
    {
      if |items| == 0 {
        return None;
      }
      RootIsMinimumAll(items);
      var first := items[0];
      var last := items[|items| - 1];
      assert items == items[..|items| - 1] + [last];
      items := items[..|items| - 1];
      if last != first {
        items := items[0 := last];
        SiftDown(last, 0);
      }
      return Some(first);
    }

    /** `siftUp`: swap `node` with its parent while the parent compares greater. */
    method SiftUp(node: Task, i: nat)
      requires i < |items| && items[i] == node && HeapExceptUp(items, i)
      modifies this
      ensures Valid()
      ensures |items| == |old(items)| && multiset(items) == multiset(old(items))
      ensures forall k :: 0 <= k < |items| && k !in RootPath(i) ==> items[k] == old(items)[k]
    {
      var index: nat := i;
      ghost var touched: set<nat> := {};
      while index > 0
        invariant SiftingUp(old(items), items, node, i, index, touched)
        decreases index
      {
        var parentIndex := (index - 1) / 2;
        var parent := items[parentIndex];
        if Compare(parent, node) > 0 {
          SiftingUpStep(old(items), items, node, i, index, touched);
          items := items[parentIndex := node][index := parent];
          touched := touched + {index, parentIndex};
          index := parentIndex;
        } else {
          SiftingUpDone(old(items), items, node, i, index, touched);
          return;
        }
      }
      SiftingUpDone(old(items), items, node, i, index, touched);
    }

    /** `siftDown`: swap `node` with its smaller child while that child compares smaller. */
    method SiftDown(node: Task, i: nat)
      requires i < |items| && items[i] == node && HeapExceptDown(items, i)
      modifies this
      ensures Valid()
      ensures |items| == |old(items)| && multiset(items) == multiset(old(items))
    {
      var index: nat := i;
      var length := |items|;
      var halfLength := length / 2;
      while index < halfLength
        invariant length == |items| == |old(items)|
        invariant index < length && items[index] == node
        invariant HeapExceptDown(items, index)
        invariant multiset(items) == multiset(old(items))
        decreases length - index
      {
        var target := SiftDownTarget(items, index, node);
        if target.None? {
          return;
        }
        var childIndex := target.value;
        SiftDownStep(items, index, childIndex, node);
        items := items[index := items[childIndex]][childIndex := node];
        index := childIndex;
      }
    }
  }
}
