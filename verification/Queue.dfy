/** The priority queue of src/queue/queue.c: a binary max-heap of process pointers. */
module Queue {

  const MAX_PROCESSES := 256

  /** A process pointer: the slot of the process table it points to, and the priority found there. */
  datatype Ref = Ref(slot: nat, priority: nat)

  // ---------- the heap as a sequence ----------

  function Parent(i: nat): (p: nat)
    requires i > 0
    ensures p < i
  {
    (i - 1) / 2
  }

  /** Among the first `n` elements no child has a higher priority than its parent. */
  predicate Heap(s: seq<Ref>, n: nat)
    requires n <= |s|
  {
    forall i :: 0 < i < n ==> s[i].priority <= s[Parent(i)].priority
  }

  function Swapped(s: seq<Ref>, a: nat, b: nat): (t: seq<Ref>)
    requires a < |s| && b < |s|
    ensures |t| == |s|
  {
    s[a := s[b]][b := s[a]]
  }

  function BubbleUp(s: seq<Ref>, i: nat): (t: seq<Ref>)
    requires i < |s|
    ensures |t| == |s|
    decreases i
  {
    if i > 0 && s[i].priority > s[Parent(i)].priority then BubbleUp(Swapped(s, i, Parent(i)), Parent(i)) else s
  }

  /** The larger of `i` and its children below `n`; the left child wins a tie with the right one. */
  function Largest(s: seq<Ref>, n: nat, i: nat): (l: nat)
    requires n <= |s| && i < n
    ensures l == i || (l == 2 * i + 1 < n) || (l == 2 * i + 2 < n)
    ensures s[i].priority <= s[l].priority && (l != i ==> s[i].priority < s[l].priority)
    ensures forall c :: 0 < c < n && Parent(c) == i ==> s[c].priority <= s[l].priority
  {
    var left, right := 2 * i + 1, 2 * i + 2;
    var l := if left < n && s[left].priority > s[i].priority then left else i;
    if right < n && s[right].priority > s[l].priority then right else l
  }

  function BubbleDown(s: seq<Ref>, n: nat, i: nat): (t: seq<Ref>)
    requires n <= |s|
    ensures |t| == |s|
    decreases n - i
  {
    if i >= n || Largest(s, n, i) == i then s
    else BubbleDown(Swapped(s, i, Largest(s, n, i)), n, Largest(s, n, i))
  }

  // ---------- permutation ----------

  lemma SwapKeeps(s: seq<Ref>, a: nat, b: nat, n: nat)
    requires a < n <= |s| && b < n
    ensures multiset(Swapped(s, a, b)[..n]) == multiset(s[..n]) && Swapped(s, a, b)[n..] == s[n..]
  {
    assert Swapped(s, a, b)[..n] == s[..n][a := s[b]][b := s[a]];
  }

  lemma {:induction false} UpPermutes(s: seq<Ref>, i: nat, n: nat)
    requires i < n <= |s|
    ensures multiset(BubbleUp(s, i)[..n]) == multiset(s[..n]) && BubbleUp(s, i)[n..] == s[n..]
    decreases i
  {
    if i > 0 && s[i].priority > s[Parent(i)].priority {
      SwapKeeps(s, i, Parent(i), n);
      UpPermutes(Swapped(s, i, Parent(i)), Parent(i), n);
    }
  }

  lemma {:induction false} DownPermutes(s: seq<Ref>, n: nat, i: nat)
    requires n <= |s|
    ensures multiset(BubbleDown(s, n, i)[..n]) == multiset(s[..n]) && BubbleDown(s, n, i)[n..] == s[n..]
    decreases n - i
  {
    if i < n && Largest(s, n, i) != i {
      SwapKeeps(s, i, Largest(s, n, i), n);
      DownPermutes(Swapped(s, i, Largest(s, n, i)), n, Largest(s, n, i));
    }
  }

  // ---------- order ----------

  /** Ordered but for the pair of `i` and its parent, whose children fit under that parent. */
  predicate HeapAbove(s: seq<Ref>, n: nat, i: nat)
    requires i < n <= |s|
  {
    && (forall j :: 0 < j < n && j != i ==> s[j].priority <= s[Parent(j)].priority)
    && forall j :: 0 < j < n && Parent(j) == i && i > 0 ==> s[j].priority <= s[Parent(i)].priority
  }

  lemma {:induction false} UpOrders(s: seq<Ref>, n: nat, i: nat)
    requires i < n <= |s| && HeapAbove(s, n, i)
    ensures Heap(BubbleUp(s, i), n)
    decreases i
  {
    if i > 0 && s[i].priority > s[Parent(i)].priority {
      UpStep(s, n, i);
      UpOrders(Swapped(s, i, Parent(i)), n, Parent(i));
    }
  }

  lemma UpStep(s: seq<Ref>, n: nat, i: nat)
    requires 0 < i < n <= |s| && HeapAbove(s, n, i) && s[i].priority > s[Parent(i)].priority
    ensures HeapAbove(Swapped(s, i, Parent(i)), n, Parent(i))
  {
    var t, p := Swapped(s, i, Parent(i)), Parent(i);
    forall j | 0 < j < n && j != p ensures t[j].priority <= t[Parent(j)].priority {
      if Parent(j) != p && Parent(j) != i {
        assert t[j] == s[j] || j == i;
      }
    }
    forall j | 0 < j < n && Parent(j) == p && p > 0 ensures t[j].priority <= t[Parent(p)].priority {
      assert s[p].priority <= s[Parent(p)].priority;
    }
  }

  /** Ordered but for the pairs of `i` and its children, which fit under the parent of `i`. */
  predicate HeapBelow(s: seq<Ref>, n: nat, i: nat)
    requires n <= |s|
  {
    && (forall j :: 0 < j < n && Parent(j) != i ==> s[j].priority <= s[Parent(j)].priority)
    && forall j :: 0 < j < n && Parent(j) == i && 0 < i < n ==> s[j].priority <= s[Parent(i)].priority
  }

  lemma {:induction false} DownOrders(s: seq<Ref>, n: nat, i: nat)
    requires n <= |s| && HeapBelow(s, n, i)
    ensures Heap(BubbleDown(s, n, i), n)
    decreases n - i
  {
    if i < n && Largest(s, n, i) != i {
      DownStep(s, n, i);
      DownOrders(Swapped(s, i, Largest(s, n, i)), n, Largest(s, n, i));
    }
  }

  lemma DownStep(s: seq<Ref>, n: nat, i: nat)
    requires i < n <= |s| && HeapBelow(s, n, i) && Largest(s, n, i) != i
    ensures HeapBelow(Swapped(s, i, Largest(s, n, i)), n, Largest(s, n, i))
  {
    var l := Largest(s, n, i);
    var t := Swapped(s, i, l);
    hide Largest;
    assert Parent(l) == i;
    forall j | 0 < j < n && Parent(j) != l ensures t[j].priority <= t[Parent(j)].priority {
      if Parent(j) != i && j != i {
        assert t[j] == s[j] && t[Parent(j)] == s[Parent(j)];
      }
    }
    forall j | 0 < j < n && Parent(j) == l ensures t[j].priority <= t[Parent(l)].priority {
      assert s[j].priority <= s[l].priority;
    }
  }

  /** The root of a heap has the highest priority. */
  lemma {:induction false} RootIsMax(s: seq<Ref>, n: nat, i: nat)
    requires i < n <= |s| && Heap(s, n)
    ensures s[i].priority <= s[0].priority
    decreases i
  {
    if i > 0 {
      RootIsMax(s, n, Parent(i));
    }
  }

  // ---------- push and pop ----------

  /** pq_push into slot `n` of the data array. */
  function PushSeq(s: seq<Ref>, n: nat, r: Ref): seq<Ref>
    requires n < |s|
  {
    BubbleUp(s[n := r], n)
  }

  lemma PushKeeps(s: seq<Ref>, n: nat, r: Ref)
    requires n < |s| && Heap(s, n)
    ensures var t := PushSeq(s, n, r);
            |t| == |s| && Heap(t, n + 1) && multiset(t[..n + 1]) == multiset(s[..n]) + multiset{r}
  {
    var u := s[n := r];
    assert u[..n + 1] == s[..n] + [r];
    UpOrders(u, n + 1, n);
    UpPermutes(u, n, n + 1);
  }

  /** What pq_pop leaves of `n` elements. */
  function PopSeq(s: seq<Ref>, n: nat): seq<Ref>
    requires 0 < n <= |s|
  {
    BubbleDown(s[0 := s[n - 1]], n - 1, 0)
  }

  lemma PopKeeps(s: seq<Ref>, n: nat)
    requires 0 < n <= |s| && Heap(s, n)
    ensures var t := PopSeq(s, n);
            |t| == |s| && Heap(t, n - 1) && multiset(t[..n - 1]) == multiset(s[..n]) - multiset{s[0]}
  {
    hide Heap, BubbleDown;
    var u := s[0 := s[n - 1]];
    assert HeapBelow(u, n - 1, 0) by { LastToRoot(s, n); }
    DownOrders(u, n - 1, 0);
    DownPermutes(u, n - 1, 0);
    WithoutRoot(s, n);
  }

  lemma LastToRoot(s: seq<Ref>, n: nat)
    requires 0 < n <= |s| && Heap(s, n)
    ensures HeapBelow(s[0 := s[n - 1]], n - 1, 0)
  {
  }

  lemma WithoutRoot(s: seq<Ref>, n: nat)
    requires 0 < n <= |s|
    ensures multiset(s[0 := s[n - 1]][..n - 1]) == multiset(s[..n]) - multiset{s[0]}
  {
    if n > 1 {
      assert s[0 := s[n - 1]][..n - 1] == [s[n - 1]] + s[1..n - 1];
      assert s[..n] == [s[0]] + s[1..n - 1] + [s[n - 1]];
    } else {
      assert s[..n] == [s[0]];
    }
  }

  // ---------- ties ----------

  /** An element moves up only past a lower priority: one that is not higher than its parent's stays. */
  lemma UpStays(s: seq<Ref>, i: nat)
    requires i < |s| && (i == 0 || s[i].priority <= s[(i - 1) / 2].priority)
    ensures BubbleUp(s, i) == s
  {
  }

  /** It moves down only past a higher one. */
  lemma DownStays(s: seq<Ref>, n: nat, i: nat)
    requires n <= |s| && i < n
    requires 2 * i + 1 < n ==> s[2 * i + 1].priority <= s[i].priority
    requires 2 * i + 2 < n ==> s[2 * i + 2].priority <= s[i].priority
    ensures BubbleDown(s, n, i) == s
  {
  }

  /** Of two children with the same, higher priority the left one moves up. */
  lemma LeftFirst(s: seq<Ref>, n: nat, i: nat)
    requires n <= |s| && 2 * i + 2 < n
    requires s[2 * i + 1].priority == s[2 * i + 2].priority > s[i].priority
    ensures BubbleDown(s, n, i) == BubbleDown(s[i := s[2 * i + 1]][2 * i + 1 := s[i]], n, 2 * i + 1)
  {
  }

  /** Among equal priorities a push puts the element at the end, and a pop puts the last one in front. */
  lemma AmongEquals(s: seq<Ref>, n: nat, r: Ref)
    requires n < |s| && forall i :: 0 <= i < n ==> s[i].priority == r.priority
    ensures PushSeq(s, n, r) == s[n := r]
    ensures n > 0 ==> PopSeq(s, n) == s[0 := s[n - 1]]
  {
    UpStays(s[n := r], n);
    if n > 1 {
      DownStays(s[0 := s[n - 1]], n - 1, 0);
    }
  }

  /** Popping until the queue is empty. */
  function Drained(s: seq<Ref>, n: nat): (out: seq<Ref>)
    requires n <= |s|
    decreases n
  {
    if n == 0 then []
    else
      var t := PopSeq(s, n);
      [s[0]] + Drained(t, n - 1)
  }

  predicate Descending(out: seq<Ref>) {
    forall i, j :: 0 <= i < j < |out| ==> out[j].priority <= out[i].priority
  }

  /** Draining yields every element once, */
  lemma {:induction false} DrainPermutes(s: seq<Ref>, n: nat)
    requires n <= |s| && Heap(s, n)
    ensures multiset(Drained(s, n)) == multiset(s[..n])
    decreases n
  {
    hide PopSeq, Heap;
    if n > 0 {
      PopKeeps(s, n);
      PopIsMax(s, n);
      DrainPermutes(PopSeq(s, n), n - 1);
      assert Drained(s, n) == [s[0]] + Drained(PopSeq(s, n), n - 1);
    }
  }

  /** in order of non-increasing priority. */
  lemma {:induction false} DrainDescends(s: seq<Ref>, n: nat)
    requires n <= |s| && Heap(s, n)
    ensures Descending(Drained(s, n))
    decreases n
  {
    hide PopSeq, Heap, Descending, Drained;
    DrainStep(s, n);
    if n > 0 {
      PopKeeps(s, n);
      DrainDescends(PopSeq(s, n), n - 1);
      TopFits(s, n);
      TopFirst(s[0], Drained(PopSeq(s, n), n - 1));
    } else {
      NothingDescends();
    }
  }

  lemma DrainStep(s: seq<Ref>, n: nat)
    requires n <= |s|
    ensures Drained(s, n) == if n == 0 then [] else [s[0]] + Drained(PopSeq(s, n), n - 1)
  {
  }

  lemma TopFits(s: seq<Ref>, n: nat)
    requires 0 < n <= |s| && Heap(s, n)
    ensures AtMost(Drained(PopSeq(s, n), n - 1), s[0])
  {
    hide PopSeq, Heap, Drained;
    var t := PopSeq(s, n);
    PopKeeps(s, n);
    PopIsMax(s, n);
    DrainPermutes(t, n - 1);
    var rest := Drained(t, n - 1);
    forall j | 0 <= j < |rest| ensures rest[j].priority <= s[0].priority {
      assert rest[j] in multiset(rest);
    }
  }

  predicate AtMost(out: seq<Ref>, top: Ref) {
    forall j :: 0 <= j < |out| ==> out[j].priority <= top.priority
  }

  lemma NothingDescends()
    ensures Descending([])
  {
  }

  lemma TopFirst(top: Ref, rest: seq<Ref>)
    requires Descending(rest) && AtMost(rest, top)
    ensures Descending([top] + rest)
  {
  }

  // ---------- the queue ----------

  class PriorityQueue {
    const data: array<Ref>
    var size: nat

    ghost predicate Valid()
      reads this, data
    {
      data.Length == MAX_PROCESSES && size <= MAX_PROCESSES && Heap(data[..], size)
    }

    ghost function Contents(): multiset<Ref>
      reads this, data
      requires Valid()
    {
      multiset(data[..size])
    }

    /** pq_init */
    constructor ()
      ensures Valid() && fresh(data) && Contents() == multiset{}
    {
      data := new Ref[MAX_PROCESSES](_ => Ref(0, 0));
      size := 0;
    }

    method Swap(a: nat, b: nat)
      requires a < data.Length && b < data.Length
      modifies data
      ensures data[..] == Swapped(old(data[..]), a, b)
    {
      data[a], data[b] := data[b], data[a];
    }

    /** bubble_up */
    method DoBubbleUp(i0: nat)
      requires i0 < data.Length
      modifies data
      ensures data[..] == BubbleUp(old(data[..]), i0)
    {
      var i := i0;
      while i > 0
        invariant 0 <= i < data.Length
        invariant BubbleUp(data[..], i) == BubbleUp(old(data[..]), i0)
      {
        var parent := (i - 1) / 2;
        if data[i].priority > data[parent].priority {
          Swap(i, parent);
          i := parent;
        } else {
          break;
        }
      }
    }

    /** The choice made in each turn of bubble_down. */
    method LargestOf(i: nat) returns (largest: nat)
      requires i < size <= data.Length
      ensures largest == Largest(data[..], size, i)
    {
      var left, right := 2 * i + 1, 2 * i + 2;
      largest := i;
      if left < size && data[left].priority > data[largest].priority {
        largest := left;
      }
      if right < size && data[right].priority > data[largest].priority {
        largest := right;
      }
    }

    /** bubble_down */
    method DoBubbleDown(i0: nat)
      requires size <= data.Length
      modifies data
      ensures data[..] == BubbleDown(old(data[..]), size, i0)
    {
      var i := i0;
      while true
        invariant BubbleDown(data[..], size, i) == BubbleDown(old(data[..]), size, i0)
        decreases size - i
      {
        if i >= size {
          break;  // both children are out of range
        }
        var largest := LargestOf(i);
        if largest == i {
          break;
        }
        Swap(i, largest);
        i := largest;
      }
    }

    /** pq_push: a full queue drops the process without a word. */
    method Push(r: Ref)
      requires Valid()
      modifies this, data
      ensures Valid()
      ensures Contents() == if |old(Contents())| < MAX_PROCESSES then old(Contents()) + multiset{r} else old(Contents())
      ensures data[..] == if old(size) < MAX_PROCESSES then PushSeq(old(data[..]), old(size), r) else old(data[..])
    {
      if size >= MAX_PROCESSES {
        return;
      }
      PushKeeps(data[..], size, r);
      data[size] := r;
      DoBubbleUp(size);
      size := size + 1;
    }

    /** pq_pop: an element of highest priority leaves the queue, unless there is none. */
    method Pop() returns (found: bool, top: Ref)
      requires Valid()
      modifies this, data
      ensures Valid() && (found <==> old(Contents()) != multiset{})
      ensures !found ==> Contents() == multiset{}
      ensures found ==> top in old(Contents()) && Contents() == old(Contents()) - multiset{top}
      ensures found ==> size == old(size) - 1 && top == old(data[0]) && data[..] == PopSeq(old(data[..]), old(size))
      ensures found ==> forall r :: r in old(Contents()) ==> r.priority <= top.priority
    {
      if size == 0 {
        return false, Ref(0, 0);
      }
      hide Heap, BubbleDown;
      found, top := true, data[0];
      PopIsMax(data[..], size);
      PopKeeps(data[..], size);
      size := size - 1;
      data[0] := data[size];
      DoBubbleDown(0);
    }

    /** pq_peek */
    method Peek() returns (found: bool, top: Ref)
      requires Valid()
      ensures found <==> Contents() != multiset{}
      ensures found ==> top in Contents() && forall r :: r in Contents() ==> r.priority <= top.priority
    {
      if size == 0 {
        return false, Ref(0, 0);
      }
      found, top := true, data[0];
      PopIsMax(data[..], size);
    }

    /** pq_is_empty */
    method IsEmpty() returns (b: bool)
      requires Valid()
      ensures b == (Contents() == multiset{})
    {
      b := size == 0;
      assert size > 0 ==> data[..size][0] in Contents();
    }
  }

  lemma PopIsMax(s: seq<Ref>, n: nat)
    requires 0 < n <= |s| && Heap(s, n)
    ensures s[0] in multiset(s[..n]) && forall r :: r in multiset(s[..n]) ==> r.priority <= s[0].priority
  {
    assert s[..n][0] == s[0];
    forall r | r in multiset(s[..n]) ensures r.priority <= s[0].priority {
      var i :| 0 <= i < n && s[i] == r;
      RootIsMax(s, n, i);
    }
  }
}
