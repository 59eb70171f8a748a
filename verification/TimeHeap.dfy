/** The time-ordered heap of hosts: a vector kept as a binary min-heap on due time. */
module TimeHeap {
  import opened Downloads
  import Queues = DownloadQueues

  function Parent(j: nat): nat
    requires 0 < j
    ensures Parent(j) < j
  {
    (j - 1) / 2
  }

  predicate InOrder(h: seq<Entry>, j: nat)
    requires 0 < j < |h|
  {
    h[Parent(j)].due <= h[j].due
  }

  predicate IsHeap(h: seq<Entry>)
  {
    forall j {:trigger InOrder(h, j)} :: 0 < j < |h| ==> InOrder(h, j)
  }

  /** The heap property bounds every entry by the front, not only the front's children. */
  lemma {:induction false} FrontIsEarliest(h: seq<Entry>, i: nat)
    requires IsHeap(h) && i < |h|
    ensures h[0].due <= h[i].due
  {
    if i > 0 {
      assert InOrder(h, i);
      FrontIsEarliest(h, Parent(i));
    }
  }

  function Swapped<T>(h: seq<T>, i: nat, j: nat): (r: seq<T>)
    requires i < |h| && j < |h|
    ensures |r| == |h| && r[i] == h[j] && r[j] == h[i]
    ensures forall k :: 0 <= k < |h| && k != i && k != j ==> r[k] == h[k]
    ensures multiset(r) == multiset(h)
  {
    h[i := h[j]][j := h[i]]
  }

  /** Entry j is not due before its grandparent: what a sift must know beside the broken edge. */
  predicate BelowGrandparent(h: seq<Entry>, j: nat)
    requires 0 < j < |h| && 0 < Parent(j)
  {
    h[Parent(Parent(j))].due <= h[j].due
  }

  /** The heap order holds everywhere except between hole and its parent. */
  predicate HeapAbove(h: seq<Entry>, hole: nat)
  {
    && (forall j {:trigger InOrder(h, j)} :: 0 < j < |h| && j != hole ==> InOrder(h, j))
    && (forall j {:trigger BelowGrandparent(h, j)} :: 0 < j < |h| && Parent(j) == hole && 0 < hole ==>
      BelowGrandparent(h, j))
  }

  /** The heap order holds on the first n entries except between hole and its children. */
  predicate HeapBelow(h: seq<Entry>, n: nat, hole: nat)
    requires n <= |h|
  {
    && (forall j {:trigger InOrder(h, j)} :: 0 < j < n && Parent(j) != hole ==> InOrder(h, j))
    && (forall j {:trigger BelowGrandparent(h, j)} :: 0 < j < n && Parent(j) == hole && 0 < hole ==>
      BelowGrandparent(h, j))
  }

  lemma SiftUpStep(h: seq<Entry>, i: nat)
    requires 0 < i < |h| && HeapAbove(h, i) && h[i].due < h[Parent(i)].due
    ensures HeapAbove(Swapped(h, i, Parent(i)), Parent(i))
  {
    var p, t := Parent(i), Swapped(h, i, Parent(i));
    forall j | 0 < j < |h| && j != p ensures InOrder(t, j) {
      if Parent(j) == i {
        assert BelowGrandparent(h, j);
      } else if j != i {
        assert InOrder(h, j);
      }
    }
    forall j | 0 < j < |h| && Parent(j) == p && 0 < p ensures BelowGrandparent(t, j) {
      assert InOrder(h, p);
      if j != i { assert InOrder(h, j); }
    }
  }

  lemma SiftUpDone(h: seq<Entry>, i: nat)
    requires i < |h| && HeapAbove(h, i) && (i == 0 || h[Parent(i)].due <= h[i].due)
    ensures IsHeap(h)
  {
    forall j | 0 < j < |h| ensures InOrder(h, j) {
      assert j != i ==> InOrder(h, j);
    }
  }

  lemma PopStart(h: seq<Entry>)
    requires IsHeap(h) && h != []
    ensures HeapBelow(Swapped(h, 0, |h| - 1), |h| - 1, 0)
  {
    var t := Swapped(h, 0, |h| - 1);
    forall j | 0 < j < |h| - 1 && Parent(j) != 0 ensures InOrder(t, j) {
      assert InOrder(h, j);
    }
  }

  lemma SiftDownStep(h: seq<Entry>, n: nat, i: nat, child: nat)
    requires n <= |h| && 0 < child < n && Parent(child) == i && HeapBelow(h, n, i)
    requires h[child].due < h[i].due
    requires forall j :: 0 < j < n && Parent(j) == i ==> h[child].due <= h[j].due
    ensures HeapBelow(Swapped(h, i, child), n, child)
  {
    var t := Swapped(h, i, child);
    forall j | 0 < j < n && Parent(j) != child ensures InOrder(t, j) {
      if j == i {
        assert BelowGrandparent(h, child);
      } else if Parent(j) != i {
        assert InOrder(h, j);
      }
    }
    forall j | 0 < j < n && Parent(j) == child ensures BelowGrandparent(t, j) {
      assert InOrder(h, j);
    }
  }

  lemma SiftDownDone(h: seq<Entry>, n: nat, i: nat)
    requires n <= |h| && HeapBelow(h, n, i)
    requires forall j :: 0 < j < n && Parent(j) == i ==> h[i].due <= h[j].due
    ensures IsHeap(h[..n])
  {
    forall j | 0 < j < n ensures InOrder(h[..n], j) {
      assert Parent(j) != i ==> InOrder(h, j);
    }
  }

  lemma WithoutBack(h: seq<Entry>)
    requires h != []
    ensures multiset(h[..|h| - 1]) == multiset(h) - multiset{h[|h| - 1]}
  {
    assert h == h[..|h| - 1] + [h[|h| - 1]];
  }

  class TimeHeap {
    var entries: seq<Entry>

    predicate Valid()
      reads this
    {
      IsHeap(entries)
    }

    constructor ()
      ensures Valid() && entries == []
    {
      entries := [];
    }

    /** One entry per queued host, all due now; equal times need no make_heap. */
    constructor FromQueues(queues: Queues.DownloadQueues, now: int)
      ensures Valid()
      ensures forall e :: multiset(entries)[e] == if e.due == now && e.host in queues.downloads then 1 else 0
    {
      entries := [];
      new;
      var hosts := queues.downloads.Keys;
      var added: set<string> := {};
      while added != hosts
        invariant added <= hosts == queues.downloads.Keys
        invariant forall e :: e in entries ==> e.due == now
        invariant forall e :: multiset(entries)[e] == if e.due == now && e.host in added then 1 else 0
        decreases |hosts - added|
      {
        var h :| h in hosts && h !in added;
        assert hosts - (added + {h}) == (hosts - added) - {h};
        entries := entries + [Entry(now, h)];
        added := added + {h};
      }
    }

    method TopTime() returns (r: Result<int>)
      requires Valid()
      ensures entries == [] ==> r == Failure(EmptyTimeHeap)
      ensures entries != [] ==> r == Success(entries[0].due) && forall e :: e in entries ==> entries[0].due <= e.due
    {
      if entries == [] {
        r := Failure(EmptyTimeHeap);
      } else {
        r := Success(entries[0].due);
        forall e | e in entries ensures entries[0].due <= e.due {
          var i :| 0 <= i < |entries| && entries[i] == e;
          FrontIsEarliest(entries, i);
        }
      }
    }

    /** emplace_back, then push_heap. */
    method Push(host: string, delay: int, now: int)
      requires Valid()
      modifies this
      ensures Valid()
      ensures multiset(entries) == old(multiset(entries)) + multiset{Entry(now + delay, host)}
    {
      ghost var before := entries;
      entries := entries + [Entry(delay + now, host)];
      var i := |entries| - 1;
      assert HeapAbove(entries, i) by {
        forall j | 0 < j < i ensures InOrder(entries, j) { assert InOrder(before, j); }
      }
      while 0 < i && entries[i].due < entries[(i - 1) / 2].due
        invariant 0 <= i < |entries|
        invariant HeapAbove(entries, i)
        invariant multiset(entries) == multiset(before) + multiset{Entry(now + delay, host)}
      {
        SiftUpStep(entries, i);
        entries, i := Swapped(entries, i, (i - 1) / 2), (i - 1) / 2;
      }
      SiftUpDone(entries, i);
    }

    /** std::pop_heap: the front goes to the back, the rest is a heap again. */
    method PopHeap()
      requires Valid() && entries != []
      modifies this
      ensures |entries| == |old(entries)| && multiset(entries) == old(multiset(entries))
      ensures entries[|entries| - 1] == old(entries[0])
      ensures IsHeap(entries[..|entries| - 1])
    {
      PopStart(entries);
      entries := Swapped(entries, 0, |entries| - 1);
      SiftDown(|entries| - 1);
    }

    /** The front of the first n entries sinks to its place; the entries from n on stay. */
    method SiftDown(n: nat)
      requires n < |entries| && HeapBelow(entries, n, 0)
      modifies this
      ensures |entries| == |old(entries)| && multiset(entries) == old(multiset(entries))
      ensures entries[n..] == old(entries)[n..] && IsHeap(entries[..n])
    {
      hide IsHeap, HeapBelow, Swapped;
      ghost var before := entries;
      var i := 0;
      while 2 * i + 1 < n
        invariant 0 <= i && (n == 0 || i < n) && |entries| == |before| && HeapBelow(entries, n, i)
        invariant forall k :: n <= k < |before| ==> entries[k] == before[k]
        invariant multiset(entries) == multiset(before)
        decreases n - i
      {
        var child := SmallerChild(n, i);
        if entries[i].due <= entries[child].due {
          break;
        }
        SiftDownStep(entries, n, i, child);
        entries, i := Swapped(entries, i, child), child;
      }
      SiftDownDone(entries, n, i);
    }

    method SmallerChild(n: nat, i: nat) returns (child: nat)
      requires 2 * i + 1 < n <= |entries|
      ensures i < child < n && Parent(child) == i
      ensures forall j :: 0 < j < n && Parent(j) == i ==> entries[child].due <= entries[j].due
    {
      child := 2 * i + 1;
      if child + 1 < n && entries[child + 1].due < entries[child].due {
        child := child + 1;
      }
    }

    /** pop_heap, then run the popper of the entry now at the back, then drop it. A popper that throws
        leaves the entry at the back. */
    method Pop(queues: Queues.DownloadQueues) returns (r: Result<Elem>)
      requires Valid()
      requires entries != [] ==> entries[0].host in queues.downloads
      modifies this, queues
      ensures old(entries) == [] ==>
        r == Failure(EmptyTimeHeap) && entries == [] && queues.downloads == old(queues.downloads)
      ensures old(entries) != [] ==>
        var top := old(entries[0]);
        var q := old(queues.downloads)[top.host];
        && (forall e :: e in old(entries) ==> top.due <= e.due)
        && (q != [] ==>
              && Valid() && multiset(entries) == old(multiset(entries)) - multiset{top}
              && r == Success(q[|q| - 1])
              && queues.downloads == old(queues.downloads)[top.host := q[..|q| - 1]])
        && (q == [] ==>
              && r == Failure(EmptyDownloadQueue) && queues.downloads == old(queues.downloads)
              && |entries| == |old(entries)| && multiset(entries) == old(multiset(entries))
              && entries[|entries| - 1] == top && IsHeap(entries[..|entries| - 1])
              && (|entries| > 1 ==> (Valid() <==> entries[Parent(|entries| - 1)].due == top.due)))
    {
      if entries == [] {
        return Failure(EmptyTimeHeap);
      }
      var _ := TopTime();
      PopHeap();
      hide IsHeap;
      var n := |entries| - 1;
      WithoutBack(entries);
      r := queues.PopDownload(entries[n].host);
      if r.Success? {
        entries := entries[..n];
      } else if n > 0 {
        forall j | 0 <= j < |entries| ensures entries[n].due <= entries[j].due {
          assert entries[j] in multiset(entries) && entries[j] in multiset(old(entries));
        }
        FailedPopKeepsHeapIff(entries);
      }
    }
  }

  /** When a popper throws, the vector keeps its entries, the earliest now at the back; it is still a
      heap exactly when the back's parent is due at the same time. */
  lemma FailedPopKeepsHeapIff(h: seq<Entry>)
    requires |h| > 1 && IsHeap(h[..|h| - 1])
    requires forall j :: 0 <= j < |h| ==> h[|h| - 1].due <= h[j].due
    ensures IsHeap(h) <==> h[Parent(|h| - 1)].due == h[|h| - 1].due
  {
    var n := |h| - 1;
    assert IsHeap(h) ==> InOrder(h, n);
    if h[Parent(n)].due == h[n].due {
      forall j | 0 < j < |h| ensures InOrder(h, j) {
        assert j < n ==> InOrder(h[..n], j);
      }
    }
  }

  /** Two hosts due at different times already break it. */
  lemma FailedPopBreaksHeap()
    ensures var h := [Entry(0, "a"), Entry(1, "b")]; IsHeap(h) && !IsHeap(Swapped(h, 0, 1))
  {
    var h := [Entry(0, "a"), Entry(1, "b")];
    assert InOrder(h, 1);
    assert !InOrder(Swapped(h, 0, 1), 1);
  }
}
