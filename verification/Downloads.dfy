/** The values that travel through the crawler: dispatched URLs, and the downloads made from them. */
module Downloads {

  datatype Option<+T> = None | Some(value: T)

  /** The exceptions: reading an empty heap, popping an empty queue, a crawler without download slots. */
  datatype Error = EmptyTimeHeap | EmptyDownloadQueue | InvalidMaxActiveDownloads

  datatype Result<+T> = Success(value: T) | Failure(error: Error)

  /** The key of one robots.txt file: exact scheme and host text, no case folding. */
  datatype Robot = Robot(scheme: string, host: string)

  /** One dispatched URL. The user's callback is an opaque identity. */
  datatype UrlElem = UrlElem(url: string, index: int, callback: int)

  /** A queued download, with what its completion callback holds: a robots.txt download owns the list
      filed under its robot, a page download the dispatched URL. */
  datatype Elem = RobotsTxt(robot: Robot) | Page(robot: Robot, item: UrlElem)
  {
    /** The host whose queue this download lives in. */
    function Host(): string { robot.host }
  }

  /** The shared URL lists, one per robots.txt download. */
  type UrlLists = map<Robot, seq<UrlElem>>

  /** ASCII letters without regard to case. */
  function Lower(c: char): char
  {
    if 'A' <= c <= 'Z' then (c as int + 32) as char else c
  }

  /** A word in any case: every character is the word's in small or in capital letters. */
  predicate Spelled(s: string, small: string, capital: string)
  {
    |s| == |small| == |capital| && forall i :: 0 <= i < |s| ==> s[i] == small[i] || s[i] == capital[i]
  }

  /** The URLs a finished download adds to its host's queue: its list for robots.txt, none for a page. */
  function Urls(lists: UrlLists, e: Elem): seq<UrlElem>
  {
    if e.RobotsTxt? && e.robot in lists then lists[e.robot] else []
  }

  function Pages(r: Robot, urls: seq<UrlElem>): (ps: seq<Elem>)
    ensures |ps| == |urls|
    ensures forall i :: 0 <= i < |urls| ==> ps[i] == Page(r, urls[i])
  {
    seq(|urls|, i requires 0 <= i < |urls| => Page(r, urls[i]))
  }

  /** A scheduled host: when it is due, and whose queue the stored popper will pop. */
  datatype Entry = Entry(due: int, host: string)
}
