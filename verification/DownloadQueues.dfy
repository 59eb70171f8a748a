/** Per-host download queues: a map from host to a vector used last-in first-out. */
module DownloadQueues {
  import opened Downloads

  /** An iterator is the host it points at; it is usable while the host is in the map. */
  class DownloadQueues {
    var downloads: map<string, seq<Elem>>

    constructor ()
      ensures downloads == map[]
    {
      downloads := map[];
    }

    method GetQueueByHost(host: string) returns (it: string)
      modifies this
      ensures it == host
      ensures downloads == if host in old(downloads) then old(downloads) else old(downloads)[host := []]
    {
      if host !in downloads {
        downloads := downloads[host := []];
      }
      it := host;
    }

    method AddDownload(it: string, download: Elem)
      requires it in downloads
      modifies this
      ensures downloads == old(downloads)[it := old(downloads)[it] + [download]]
    {
      downloads := downloads[it := downloads[it] + [download]];
    }

    method PopDownload(it: string) returns (r: Result<Elem>)
      requires it in downloads
      modifies this
      ensures r.Failure? <==> old(downloads)[it] == []
      ensures r.Failure? ==> r.error == EmptyDownloadQueue && downloads == old(downloads)
      ensures r.Success? ==> downloads.Keys == old(downloads).Keys
                             && downloads[it] + [r.value] == old(downloads)[it]
                             && forall h :: h in downloads && h != it ==> downloads[h] == old(downloads)[h]
    {
      var q := downloads[it];
      if q == [] {
        r := Failure(EmptyDownloadQueue);
      } else {
        downloads := downloads[it := q[..|q| - 1]];
        r := Success(q[|q| - 1]);
      }
    }

    method Erase(it: string)
      requires it in downloads
      modifies this
      ensures downloads == old(downloads) - {it}
    {
      downloads := downloads - {it};
    }
  }
}
