/** Grouping a dispatched batch by scheme and host, one robots.txt download per group. */
module RobotsLogic {
  import opened Downloads
  import opened DownloadPlan
  import Queues = DownloadQueues

  /** URI parsing followed by the validity test: an arbitrary function to an optional key. */
  type Parser = string -> Option<Robot>

  function RobotsTxtUrl(r: Robot): string
  {
    r.scheme + "://" + r.host + "/" + "robots.txt"
  }

  function Accepted(parse: Parser, inputs: seq<UrlElem>): seq<UrlElem>
  {
    if inputs == [] then []
    else
      var last := inputs[|inputs| - 1];
      Accepted(parse, inputs[..|inputs| - 1]) + if parse(last.url).Some? then [last] else []
  }

  /** The distinct keys of the accepted inputs, in order of first appearance. */
  function Keys(parse: Parser, inputs: seq<UrlElem>): seq<Robot>
  {
    if inputs == [] then []
    else
      var before := Keys(parse, inputs[..|inputs| - 1]);
      match parse(inputs[|inputs| - 1].url)
      case None => before
      case Some(r) => if r in before then before else before + [r]
  }

  /** The accepted inputs with key r, in input order. */
  function UrlsOf(parse: Parser, inputs: seq<UrlElem>, r: Robot): seq<UrlElem>
  {
    if inputs == [] then []
    else
      var last := inputs[|inputs| - 1];
      UrlsOf(parse, inputs[..|inputs| - 1], r) + if parse(last.url) == Some(r) then [last] else []
  }

  /** Every key's accepted inputs, filed under the key. */
  function ListsOf(parse: Parser, inputs: seq<UrlElem>): UrlLists
  {
    map r | r in Keys(parse, inputs) :: UrlsOf(parse, inputs, r)
  }

  function QueueAt(queues: map<string, seq<Elem>>, h: string): seq<Elem>
  {
    if h in queues then queues[h] else []
  }

  /** The queues after grouping: beside what they held, one robots.txt per key of the host, in key order,
      and a queue for every such host. */
  ghost predicate Grouped(before: map<string, seq<Elem>>, queues: map<string, seq<Elem>>, keys: seq<Robot>)
  {
    && (forall h :: h in queues <==> h in before || HasHost(keys, h))
    && (forall h :: QueueGrouped(before, queues, keys, h))
  }

  predicate HasHost(keys: seq<Robot>, h: string) { exists r :: r in keys && r.host == h }

  predicate QueueGrouped(before: map<string, seq<Elem>>, queues: map<string, seq<Elem>>, keys: seq<Robot>, h: string)
  {
    QueueAt(queues, h) == QueueAt(before, h) + HostQueue(keys, h)
  }

  /** The grouping loop. The shared lists its closures own are returned under the robot's name. */
  method PopulateDownloadQueuesWithRobots(dwQueues: Queues.DownloadQueues, urlsToCrawl: seq<UrlElem>, parse: Parser)
    returns (robots: UrlLists)
    modifies dwQueues
    ensures robots == ListsOf(parse, urlsToCrawl)
    ensures Grouped(old(dwQueues.downloads), dwQueues.downloads, Keys(parse, urlsToCrawl))
  {
    robots := map[];
    ghost var before := dwQueues.downloads;
    NothingGrouped(before, parse);
    hide Grouped, Keys, UrlsOf, ListsOf;
    for i := 0 to |urlsToCrawl|
      invariant robots == ListsOf(parse, urlsToCrawl[..i])
      invariant Grouped(before, dwQueues.downloads, Keys(parse, urlsToCrawl[..i]))
    {
      var urlElem := urlsToCrawl[i];
      NextKeys(parse, urlsToCrawl, i);
      ghost var keys := Keys(parse, urlsToCrawl[..i]);
      match parse(urlElem.url) {
        case None =>
          SameLists(parse, urlsToCrawl, i);
        case Some(robot) =>
          NextLists(parse, urlsToCrawl, i, robot);
          ListsAreOfKeys(parse, urlsToCrawl[..i]);
          if robot !in robots {
            ghost var queues := dwQueues.downloads;
            robots := robots[robot := []];
            var it := dwQueues.GetQueueByHost(robot.host);
            dwQueues.AddDownload(it, RobotsTxt(robot));
            GroupedNext(before, queues, keys, robot);
            QueueAdded(queues, dwQueues.downloads, robot);
          }
          robots := robots[robot := robots[robot] + [urlElem]];
      }
    }
    assert urlsToCrawl[..|urlsToCrawl|] == urlsToCrawl;
  }

  lemma NothingGrouped(before: map<string, seq<Elem>>, parse: Parser)
    ensures ListsOf(parse, []) == map[] && Grouped(before, before, Keys(parse, []))
  {
  }

  lemma QueueAdded(queues: map<string, seq<Elem>>, after: map<string, seq<Elem>>, r: Robot)
    requires var with := if r.host in queues then queues else queues[r.host := []];
      after == with[r.host := QueueAt(queues, r.host) + [RobotsTxt(r)]]
    ensures after == queues[r.host := QueueAt(queues, r.host) + [RobotsTxt(r)]]
  {
  }

  /** What one more input does to the keys. */
  lemma NextKeys(parse: Parser, inputs: seq<UrlElem>, i: nat)
    requires i < |inputs|
    ensures var keys := Keys(parse, inputs[..i]);
      Keys(parse, inputs[..i + 1])
      == match parse(inputs[i].url) case None => keys case Some(r) => if r in keys then keys else keys + [r]
  {
    assert inputs[..i + 1][..i] == inputs[..i];
  }

  lemma NextUrls(parse: Parser, inputs: seq<UrlElem>, i: nat, r: Robot)
    requires i < |inputs|
    ensures var urls := UrlsOf(parse, inputs[..i], r);
      UrlsOf(parse, inputs[..i + 1], r) == if parse(inputs[i].url) == Some(r) then urls + [inputs[i]] else urls
  {
    assert inputs[..i + 1][..i] == inputs[..i];
  }

  function WithUrl(lists: UrlLists, r: Robot, u: UrlElem): UrlLists
  {
    lists[r := (if r in lists then lists[r] else []) + [u]]
  }

  /** And to their lists. */
  lemma NextLists(parse: Parser, inputs: seq<UrlElem>, i: nat, r: Robot)
    requires i < |inputs| && parse(inputs[i].url) == Some(r)
    ensures ListsOf(parse, inputs[..i + 1]) == WithUrl(ListsOf(parse, inputs[..i]), r, inputs[i])
  {
    var next, want := ListsOf(parse, inputs[..i + 1]), WithUrl(ListsOf(parse, inputs[..i]), r, inputs[i]);
    NextKeys(parse, inputs, i);
    assert next.Keys == want.Keys by { hide UrlsOf, Keys; }
    forall k | k in next ensures next[k] == want[k] {
      NextUrls(parse, inputs, i, k);
      if k == r && r !in Keys(parse, inputs[..i]) { NoUrlsOf(parse, inputs[..i], r); }
      hide UrlsOf, Keys;
    }
    hide ListsOf, WithUrl;
  }

  lemma SameLists(parse: Parser, inputs: seq<UrlElem>, i: nat)
    requires i < |inputs| && parse(inputs[i].url).None?
    ensures ListsOf(parse, inputs[..i + 1]) == ListsOf(parse, inputs[..i])
  {
    NextKeys(parse, inputs, i);
    forall k { NextUrls(parse, inputs, i, k); }
    hide Keys, UrlsOf;
  }

  lemma ListsAreOfKeys(parse: Parser, inputs: seq<UrlElem>)
    ensures forall r :: r in ListsOf(parse, inputs) <==> r in Keys(parse, inputs)
  {
  }

  lemma GroupedNext(before: map<string, seq<Elem>>, queues: map<string, seq<Elem>>, keys: seq<Robot>, r: Robot)
    requires Grouped(before, queues, keys)
    ensures Grouped(before, queues[r.host := QueueAt(queues, r.host) + [RobotsTxt(r)]], keys + [r])
  {
    var after := queues[r.host := QueueAt(queues, r.host) + [RobotsTxt(r)]];
    HasHostNext(keys, r);
    hide HasHost;
    forall h ensures QueueGrouped(before, after, keys + [r], h) {
      assert QueueGrouped(before, queues, keys, h);
      QueueNext(before, queues, keys, r, h);
    }
    hide QueueGrouped;
  }

  lemma HasHostNext(keys: seq<Robot>, r: Robot)
    ensures forall h :: HasHost(keys + [r], h) <==> HasHost(keys, h) || h == r.host
  {
    assert forall k :: k in keys + [r] <==> k in keys || k == r;
  }

  lemma QueueNext(before: map<string, seq<Elem>>, queues: map<string, seq<Elem>>, keys: seq<Robot>, r: Robot, h: string)
    requires QueueGrouped(before, queues, keys, h)
    ensures QueueGrouped(before, queues[r.host := QueueAt(queues, r.host) + [RobotsTxt(r)]], keys + [r], h)
  {
    HostQueueNext(keys, r, h);
    hide HostQueue;
  }

  lemma HostQueueNext(keys: seq<Robot>, r: Robot, h: string)
    ensures HostQueue(keys + [r], h) == HostQueue(keys, h) + if h == r.host then [RobotsTxt(r)] else []
  {
    assert (keys + [r])[..|keys|] == keys;
  }

  lemma {:induction false} NoUrlsOf(parse: Parser, inputs: seq<UrlElem>, r: Robot)
    requires r !in Keys(parse, inputs)
    ensures UrlsOf(parse, inputs, r) == []
  {
    if inputs != [] {
      NoUrlsOf(parse, inputs[..|inputs| - 1], r);
    }
  }

  // What the groups mean

  ghost predicate Unrepeated(keys: seq<Robot>) { forall i, j :: 0 <= i < j < |keys| ==> keys[i] != keys[j] }

  /** Some input is accepted under key r. */
  ghost predicate HasKey(parse: Parser, inputs: seq<UrlElem>, r: Robot)
  {
    exists p :: 0 <= p < |inputs| && parse(inputs[p].url) == Some(r)
  }

  /** Keys are distinct, each comes from an accepted input and each accepted input's key is there. */
  lemma {:induction false} KeysAreGroups(parse: Parser, inputs: seq<UrlElem>)
    ensures var keys := Keys(parse, inputs);
      Unrepeated(keys) && forall r :: r in keys <==> HasKey(parse, inputs, r)
  {
    if inputs != [] {
      var n := |inputs| - 1;
      KeysAreGroups(parse, inputs[..n]);
      var before, keys := Keys(parse, inputs[..n]), Keys(parse, inputs);
      forall r ensures r in keys <==> HasKey(parse, inputs, r) {
        assert r in keys <==> r in before || parse(inputs[n].url) == Some(r);
        if r in before {
          var p :| 0 <= p < n && parse(inputs[..n][p].url) == Some(r);
          assert inputs[p] == inputs[..n][p];
        }
        if p :| 0 <= p < n && parse(inputs[p].url) == Some(r) {
          assert inputs[..n][p] == inputs[p];
        }
      }
    }
  }

  /** The first accepted input of key r is at p. */
  ghost predicate FirstAt(parse: Parser, inputs: seq<UrlElem>, r: Robot, p: nat)
  {
    && p < |inputs| && parse(inputs[p].url) == Some(r)
    && forall q :: 0 <= q < p ==> parse(inputs[q].url) != Some(r)
  }

  /** Keys are listed in order of first appearance. */
  lemma {:induction false} KeysInOrder(parse: Parser, inputs: seq<UrlElem>, i: nat, j: nat) returns (p: nat, q: nat)
    requires i < j < |Keys(parse, inputs)|
    ensures FirstAt(parse, inputs, Keys(parse, inputs)[i], p) && FirstAt(parse, inputs, Keys(parse, inputs)[j], q)
    ensures p < q
  {
    var n := |inputs| - 1;
    var before := Keys(parse, inputs[..n]);
    if j < |before| {
      p, q := KeysInOrder(parse, inputs[..n], i, j);
    } else {
      p := FirstOfKey(parse, inputs[..n], i);
      q := n;
      KeysAreGroups(parse, inputs[..n]);
      forall m | 0 <= m < n ensures parse(inputs[m].url) != parse(inputs[n].url) {
        assert inputs[..n][m] == inputs[m];
      }
    }
    assert forall m :: 0 <= m < n ==> inputs[..n][m] == inputs[m];
  }

  lemma {:induction false} FirstOfKey(parse: Parser, inputs: seq<UrlElem>, i: nat) returns (p: nat)
    requires i < |Keys(parse, inputs)|
    ensures FirstAt(parse, inputs, Keys(parse, inputs)[i], p)
  {
    var n := |inputs| - 1;
    var before := Keys(parse, inputs[..n]);
    if i < |before| {
      p := FirstOfKey(parse, inputs[..n], i);
    } else {
      p := n;
      KeysAreGroups(parse, inputs[..n]);
    }
    assert forall m :: 0 <= m < n ==> inputs[..n][m] == inputs[m];
  }

  /** A key's list is its inputs in input order: at names their positions, all of them, ascending. */
  lemma {:induction false} UrlsInOrder(parse: Parser, inputs: seq<UrlElem>, r: Robot) returns (at: seq<nat>)
    ensures |at| == |UrlsOf(parse, inputs, r)|
    ensures forall k :: 0 <= k < |at| ==> at[k] < |inputs| && UrlsOf(parse, inputs, r)[k] == inputs[at[k]]
    ensures forall j, k :: 0 <= j < k < |at| ==> at[j] < at[k]
    ensures forall p :: 0 <= p < |inputs| ==> (p in at <==> parse(inputs[p].url) == Some(r))
  {
    at := [];
    if inputs != [] {
      var n := |inputs| - 1;
      at := UrlsInOrder(parse, inputs[..n], r);
      assert forall p :: 0 <= p < n ==> inputs[..n][p] == inputs[p];
      if parse(inputs[n].url) == Some(r) {
        at := at + [n];
      }
    }
  }

  lemma {:induction false} UrlsOfCount(parse: Parser, inputs: seq<UrlElem>, r: Robot, u: UrlElem)
    ensures multiset(UrlsOf(parse, inputs, r))[u] == if parse(u.url) == Some(r) then multiset(inputs)[u] else 0
  {
    if inputs != [] {
      UrlsOfCount(parse, inputs[..|inputs| - 1], r, u);
      assert inputs == inputs[..|inputs| - 1] + [inputs[|inputs| - 1]];
    }
  }

  lemma {:induction false} AcceptedCount(parse: Parser, inputs: seq<UrlElem>, u: UrlElem)
    ensures multiset(Accepted(parse, inputs))[u] == if parse(u.url).Some? then multiset(inputs)[u] else 0
  {
    if inputs != [] {
      AcceptedCount(parse, inputs[..|inputs| - 1], u);
      assert inputs == inputs[..|inputs| - 1] + [inputs[|inputs| - 1]];
    }
  }

  lemma {:induction false} PagesCount(r: Robot, urls: seq<UrlElem>, e: Elem)
    ensures multiset(Pages(r, urls))[e] == if e.Page? && e.robot == r then multiset(urls)[e.item] else 0
  {
    if urls == [] {
      assert Pages(r, urls) == [];
    } else {
      var n := |urls| - 1;
      PagesCount(r, urls[..n], e);
      assert Pages(r, urls) == Pages(r, urls[..n]) + [Page(r, urls[n])];
      assert urls == urls[..n] + [urls[n]];
    }
  }

  /** How often a download occurs among everything a list of distinct robots stands for. */
  lemma {:induction false} AllElemsCount(lists: UrlLists, keys: seq<Robot>, e: Elem)
    requires Unrepeated(keys)
    ensures multiset(AllElems(lists, keys))[e]
         == if e.robot !in keys then 0
            else if e.RobotsTxt? then 1
            else multiset(Urls(lists, RobotsTxt(e.robot)))[e.item]
  {
    if keys != [] {
      var n := |keys| - 1;
      AllElemsCount(lists, keys[..n], e);
      BlockCount(lists, keys[n], e);
      InOrLast(keys, e.robot);
      hide Block, Urls, AllElems;
      AllElemsLast(lists, keys, e);
    }
  }

  lemma InOrLast(keys: seq<Robot>, r: Robot)
    requires keys != []
    ensures r in keys <==> r in keys[..|keys| - 1] || r == keys[|keys| - 1]
  {
  }

  lemma AllElemsLast(lists: UrlLists, keys: seq<Robot>, e: Elem)
    requires keys != []
    ensures var n := |keys| - 1;
      multiset(AllElems(lists, keys))[e] == multiset(Block(lists, keys[n]))[e] + multiset(AllElems(lists, keys[..n]))[e]
  {
    hide Block;
  }

  lemma BlockCount(lists: UrlLists, r: Robot, e: Elem)
    ensures multiset(Block(lists, r))[e]
         == if e.robot != r then 0 else if e.RobotsTxt? then 1 else multiset(Urls(lists, RobotsTxt(r)))[e.item]
  {
    var urls := Urls(lists, RobotsTxt(r));
    BackwardsMultiset(Pages(r, urls));
    PagesCount(r, urls, e);
    hide Backwards, Urls;
    assert multiset(Block(lists, r)) == multiset{RobotsTxt(r)} + multiset(Pages(r, urls));
  }

  /** How often a download belongs to a batch: once for the robots.txt of each key, as often as it was
      dispatched for an accepted input under its own key, never for a rejected one. */
  ghost function Expected(parse: Parser, inputs: seq<UrlElem>, e: Elem): nat
  {
    if e.RobotsTxt? then (if HasKey(parse, inputs, e.robot) then 1 else 0)
    else if parse(e.item.url) == Some(e.robot) then multiset(inputs)[e.item] else 0
  }

  /** The batch is exactly what is expected, download by download. */
  lemma BatchIsExact(parse: Parser, inputs: seq<UrlElem>, e: Elem)
    ensures multiset(AllElems(ListsOf(parse, inputs), Keys(parse, inputs)))[e] == Expected(parse, inputs, e)
  {
    var keys := Keys(parse, inputs);
    KeysAreGroups(parse, inputs);
    AllElemsCount(ListsOf(parse, inputs), keys, e);
    if e.Page? {
      UrlsOfCount(parse, inputs, e.robot, e.item);
      if e.robot !in keys {
        NoUrlsOf(parse, inputs, e.robot);
      }
    }
  }

  /** As many downloads as keys and accepted inputs together. */
  lemma BatchSize(parse: Parser, inputs: seq<UrlElem>)
    ensures PageCount(ListsOf(parse, inputs), Keys(parse, inputs)) == |Accepted(parse, inputs)|
  {
    KeysAreGroups(parse, inputs);
    PageCountOfKeys(parse, inputs, ListsOf(parse, inputs), Keys(parse, inputs));
    SplitByKeys(parse, inputs, Keys(parse, inputs));
  }

  function TotalUrls(parse: Parser, inputs: seq<UrlElem>, keys: seq<Robot>): nat
  {
    if keys == [] then 0
    else |UrlsOf(parse, inputs, keys[|keys| - 1])| + TotalUrls(parse, inputs, keys[..|keys| - 1])
  }

  lemma {:induction false} PageCountOfKeys(parse: Parser, inputs: seq<UrlElem>, lists: UrlLists, keys: seq<Robot>)
    requires forall r :: r in keys ==> r in lists && lists[r] == UrlsOf(parse, inputs, r)
    ensures PageCount(lists, keys) == TotalUrls(parse, inputs, keys)
  {
    if keys != [] {
      assert keys[|keys| - 1] in keys;
      PageCountOfKeys(parse, inputs, lists, keys[..|keys| - 1]);
    }
  }

  /** Splitting by distinct keys that cover every accepted input loses and repeats nothing. */
  lemma {:induction false} SplitByKeys(parse: Parser, inputs: seq<UrlElem>, keys: seq<Robot>)
    requires Unrepeated(keys)
    requires forall p :: 0 <= p < |inputs| && parse(inputs[p].url).Some? ==> parse(inputs[p].url).value in keys
    ensures TotalUrls(parse, inputs, keys) == |Accepted(parse, inputs)|
  {
    if inputs == [] {
      NothingToSplit(parse, keys);
    } else {
      var n := |inputs| - 1;
      assert forall p :: 0 <= p < n ==> inputs[..n][p] == inputs[p];
      SplitByKeys(parse, inputs[..n], keys);
      hide TotalUrls;
      SplitNext(parse, inputs, keys);
      if parse(inputs[n].url).Some? {
        assert parse(inputs[n].url).value in keys;
      }
    }
  }

  lemma {:induction false} NothingToSplit(parse: Parser, keys: seq<Robot>)
    ensures TotalUrls(parse, [], keys) == 0
  {
    if keys != [] {
      NothingToSplit(parse, keys[..|keys| - 1]);
    }
  }

  lemma TotalUrlsLast(parse: Parser, inputs: seq<UrlElem>, keys: seq<Robot>)
    requires keys != []
    ensures TotalUrls(parse, inputs, keys)
         == |UrlsOf(parse, inputs, keys[|keys| - 1])| + TotalUrls(parse, inputs, keys[..|keys| - 1])
  {
  }

  lemma UrlsOfLast(parse: Parser, inputs: seq<UrlElem>, r: Robot)
    requires inputs != []
    ensures var n := |inputs| - 1;
      |UrlsOf(parse, inputs, r)| == |UrlsOf(parse, inputs[..n], r)| + if parse(inputs[n].url) == Some(r) then 1 else 0
  {
  }

  lemma {:induction false} SplitNext(parse: Parser, inputs: seq<UrlElem>, keys: seq<Robot>)
    requires inputs != [] && Unrepeated(keys)
    ensures var r := parse(inputs[|inputs| - 1].url);
      TotalUrls(parse, inputs, keys)
      == TotalUrls(parse, inputs[..|inputs| - 1], keys) + if r.Some? && r.value in keys then 1 else 0
  {
    if keys != [] {
      var n := |keys| - 1;
      hide *;
      assert Unrepeated(keys[..|keys| - 1]) && keys[|keys| - 1] !in keys[..|keys| - 1];
      SplitNext(parse, inputs, keys[..n]);
      TotalUrlsLast(parse, inputs, keys);
      TotalUrlsLast(parse, inputs[..|inputs| - 1], keys);
      UrlsOfLast(parse, inputs, keys[n]);
      var r := parse(inputs[|inputs| - 1].url);
      if r.Some? { InOrLast(keys, r.value); }
    }
  }

  // robots.txt addresses

  /** https? without regard to case: the schemes the validity test lets through. */
  predicate IsHttpScheme(s: string) { Spelled(s, "http", "HTTP") || Spelled(s, "https", "HTTPS") }

  lemma HttpHasNoColon(s: string)
    requires IsHttpScheme(s)
    ensures ':' !in s
  {
  }

  /** What stands where in an address, whatever the scheme and the host. */
  lemma RobotsTxtUrlParts(r: Robot)
    ensures var u, n := RobotsTxtUrl(r), |r.scheme|;
      && |u| == n + 14 + |r.host|
      && u[..n] == r.scheme && u[n..n + 3] == "://" && u[n + 3..|u| - 11] == r.host
      && u[|u| - 11..] == "/robots.txt"
  {
  }

  /** The first colon of a robots.txt address ends the scheme. */
  lemma ColonEndsScheme(r: Robot)
    requires ':' !in r.scheme
    ensures var u, n := RobotsTxtUrl(r), |r.scheme|;
      && |u| == n + 14 + |r.host|
      && u[n] == ':' && (forall k :: 0 <= k < n ==> u[k] != ':')
      && r.scheme == u[..n] && r.host == u[n + 3..|u| - 11]
  {
    var u, n := RobotsTxtUrl(r), |r.scheme|;
    RobotsTxtUrlParts(r);
    hide RobotsTxtUrl;
    assert u[n] == u[n..n + 3][0];
    assert forall k :: 0 <= k < n ==> u[k] == u[..n][k];
  }

  /** Different keys have different robots.txt addresses, as long as schemes hold no colon. */
  lemma RobotsTxtUrlInjective(a: Robot, b: Robot)
    requires ':' !in a.scheme && ':' !in b.scheme
    ensures RobotsTxtUrl(a) == RobotsTxtUrl(b) <==> a == b
  {
    ColonEndsScheme(a);
    ColonEndsScheme(b);
    hide RobotsTxtUrl;
  }

  /** A colon in the scheme would make two keys share one address. */
  lemma RobotsTxtUrlClash()
    ensures RobotsTxtUrl(Robot("a://b", "c")) == RobotsTxtUrl(Robot("a", "b://c"))
    ensures Robot("a://b", "c") != Robot("a", "b://c")
  {
    assert RobotsTxtUrl(Robot("a://b", "c")) == "a://b://c/robots.txt";
    assert RobotsTxtUrl(Robot("a", "b://c")) == "a://b://c/robots.txt";
    assert "a://b" != "a";
  }

  /** In a batch accepted by the validity test, no two robots.txt downloads share an address. */
  lemma DistinctRobotsTxtUrls(parse: Parser, inputs: seq<UrlElem>, i: nat, j: nat)
    requires forall u :: parse(u).Some? ==> IsHttpScheme(parse(u).value.scheme)
    requires i < j < |Keys(parse, inputs)|
    ensures RobotsTxtUrl(Keys(parse, inputs)[i]) != RobotsTxtUrl(Keys(parse, inputs)[j])
  {
    var keys := Keys(parse, inputs);
    KeysAreGroups(parse, inputs);
    assert keys[i] in keys && keys[j] in keys;
    HttpHasNoColon(keys[i].scheme);
    HttpHasNoColon(keys[j].scheme);
    RobotsTxtUrlInjective(keys[i], keys[j]);
  }
}
