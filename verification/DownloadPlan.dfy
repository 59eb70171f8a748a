/** What a batch is meant to download, host by host, stated without queues, heaps or threads. */
module DownloadPlan {
  import opened Downloads

  function Backwards<T>(s: seq<T>): (r: seq<T>)
    ensures |r| == |s|
  {
    if s == [] then [] else [s[|s| - 1]] + Backwards(s[..|s| - 1])
  }

  /** robots.txt of one robot, then its URLs in reverse input order. */
  function Block(lists: UrlLists, r: Robot): seq<Elem>
  {
    [RobotsTxt(r)] + Backwards(Pages(r, Urls(lists, RobotsTxt(r))))
  }

  /** The plan of one host: the blocks of its robots, last seen robot first. */
  function PlanOf(lists: UrlLists, keys: seq<Robot>, h: string): seq<Elem>
  {
    if keys == [] then []
    else
      var last := keys[|keys| - 1];
      (if last.host == h then Block(lists, last) else []) + PlanOf(lists, keys[..|keys| - 1], h)
  }

  /** Everything a batch is meant to download. */
  function AllElems(lists: UrlLists, keys: seq<Robot>): seq<Elem>
  {
    if keys == [] then []
    else Block(lists, keys[|keys| - 1]) + AllElems(lists, keys[..|keys| - 1])
  }

  /** How many page downloads a batch holds. */
  function PageCount(lists: UrlLists, keys: seq<Robot>): nat
  {
    if keys == [] then 0
    else |Urls(lists, RobotsTxt(keys[|keys| - 1]))| + PageCount(lists, keys[..|keys| - 1])
  }

  /** The downloads of one host, in order. */
  function OfHost(elems: seq<Elem>, h: string): seq<Elem>
  {
    if elems == [] then []
    else
      var last := elems[|elems| - 1];
      OfHost(elems[..|elems| - 1], h) + (if last.Host() == h then [last] else [])
  }

  /** The queue of one host as the grouping loop leaves it. */
  function HostQueue(keys: seq<Robot>, h: string): seq<Elem>
  {
    if keys == [] then []
    else
      var last := keys[|keys| - 1];
      HostQueue(keys[..|keys| - 1], h) + (if last.host == h then [RobotsTxt(last)] else [])
  }

  /** A last-in first-out queue unrolled: the order in which its downloads, and those their
      callbacks add, will be popped. */
  function Unfold(lists: UrlLists, q: seq<Elem>): seq<Elem>
  {
    if q == [] then []
    else
      var top := q[|q| - 1];
      [top] + Backwards(Pages(top.robot, Urls(lists, top))) + Unfold(lists, q[..|q| - 1])
  }

  lemma {:induction false} BackwardsAt<T>(s: seq<T>, k: nat)
    requires k < |s|
    ensures Backwards(s)[k] == s[|s| - 1 - k]
  {
    if k > 0 { BackwardsAt(s[..|s| - 1], k - 1); }
  }

  lemma {:induction false} BackwardsMultiset<T>(s: seq<T>)
    ensures multiset(Backwards(s)) == multiset(s)
  {
    if s != [] {
      BackwardsMultiset(s[..|s| - 1]);
      assert s == s[..|s| - 1] + [s[|s| - 1]];
    }
  }

  lemma UnfoldPage(lists: UrlLists, q: seq<Elem>, p: Elem)
    requires p.Page?
    ensures Unfold(lists, q + [p]) == [p] + Unfold(lists, q)
  {
    assert (q + [p])[..|q|] == q;
  }

  lemma BackwardsLast<T>(s: seq<T>)
    requires s != []
    ensures Backwards(s) == [s[|s| - 1]] + Backwards(s[..|s| - 1])
  {
  }

  lemma Reassociated<T>(q: seq<T>, ps: seq<T>, x: T, a: seq<T>, b: seq<T>)
    requires ps != []
    ensures q + ps == (q + ps[..|ps| - 1]) + [ps[|ps| - 1]]
    ensures [x] + (a + b) == ([x] + a) + b
  {
  }

  /** Pages appended to a queue are popped in reverse, before anything already there. */
  lemma {:induction false} UnfoldPages(lists: UrlLists, q: seq<Elem>, ps: seq<Elem>)
    requires forall p :: p in ps ==> p.Page?
    ensures Unfold(lists, q + ps) == Backwards(ps) + Unfold(lists, q)
  {
    if ps == [] {
      assert q + ps == q;
    } else {
      var front, top := ps[..|ps| - 1], ps[|ps| - 1];
      assert top in ps;
      hide Unfold, Backwards;
      UnfoldPages(lists, q, front);
      UnfoldPage(lists, q + front, top);
      BackwardsLast(ps);
      Reassociated(q, ps, top, Backwards(front), Unfold(lists, q));
    }
  }

  /** The grouped queue, unrolled, is the plan. */
  lemma {:induction false} UnfoldHostQueue(lists: UrlLists, keys: seq<Robot>, h: string)
    ensures Unfold(lists, HostQueue(keys, h)) == PlanOf(lists, keys, h)
  {
    if keys != [] {
      var last := keys[|keys| - 1];
      UnfoldHostQueue(lists, keys[..|keys| - 1], h);
      if last.host == h {
        var q := HostQueue(keys[..|keys| - 1], h);
        assert (q + [RobotsTxt(last)])[..|q|] == q;
      } else {
        assert HostQueue(keys, h) == HostQueue(keys[..|keys| - 1], h);
      }
    }
  }

  lemma {:induction false} OfHostAppend(elems: seq<Elem>, e: Elem, h: string)
    ensures OfHost(elems + [e], h) == OfHost(elems, h) + if e.Host() == h then [e] else []
  {
    assert (elems + [e])[..|elems|] == elems;
  }

  lemma {:induction false} OfHostMultiset(elems: seq<Elem>, h: string, e: Elem)
    ensures multiset(OfHost(elems, h))[e] == if e.Host() == h then multiset(elems)[e] else 0
  {
    if elems != [] {
      OfHostMultiset(elems[..|elems| - 1], h, e);
      assert elems == elems[..|elems| - 1] + [elems[|elems| - 1]];
    }
  }

  lemma {:induction false} BlockHost(lists: UrlLists, r: Robot, e: Elem)
    requires e.Host() != r.host
    ensures multiset(Block(lists, r))[e] == 0
  {
    var ps := Pages(r, Urls(lists, RobotsTxt(r)));
    BackwardsMultiset(ps);
    assert e !in ps;
    assert e !in multiset(ps);
  }

  /** A host's plan holds exactly the batch's downloads for that host. */
  lemma {:induction false} PlanOfMultiset(lists: UrlLists, keys: seq<Robot>, h: string, e: Elem)
    ensures multiset(PlanOf(lists, keys, h))[e] == if e.Host() == h then multiset(AllElems(lists, keys))[e] else 0
  {
    if keys != [] {
      var last := keys[|keys| - 1];
      PlanOfMultiset(lists, keys[..|keys| - 1], h, e);
      if (e.Host() == h) != (last.host == h) {
        BlockHost(lists, last, e);
      } else if last.host == h {
        assert multiset(PlanOf(lists, keys, h))
            == multiset(Block(lists, last)) + multiset(PlanOf(lists, keys[..|keys| - 1], h));
      }
    }
  }

  lemma PrefixMultiset(a: seq<Elem>, b: seq<Elem>, e: Elem)
    requires a <= b
    ensures multiset(a)[e] <= multiset(b)[e]
  {
    assert b == a + b[|a|..];
  }

  /** Downloads taken host by host from prefixes of the plans are among the batch's downloads. */
  lemma StartedWithinPlans(lists: UrlLists, keys: seq<Robot>, started: seq<Elem>)
    requires forall h :: OfHost(started, h) <= PlanOf(lists, keys, h)
    ensures multiset(started) <= multiset(AllElems(lists, keys))
  {
    forall e: Elem ensures multiset(started)[e] <= multiset(AllElems(lists, keys))[e] {
      OfHostMultiset(started, e.Host(), e);
      PlanOfMultiset(lists, keys, e.Host(), e);
      PrefixMultiset(OfHost(started, e.Host()), PlanOf(lists, keys, e.Host()), e);
    }
  }

  /** When every host's plan is finished, the batch's downloads have all been started, once each. */
  lemma StartedAllPlans(lists: UrlLists, keys: seq<Robot>, started: seq<Elem>)
    requires forall h :: OfHost(started, h) == PlanOf(lists, keys, h)
    ensures multiset(started) == multiset(AllElems(lists, keys))
  {
    forall e: Elem ensures multiset(started)[e] == multiset(AllElems(lists, keys))[e] {
      OfHostMultiset(started, e.Host(), e);
      PlanOfMultiset(lists, keys, e.Host(), e);
    }
  }
}
