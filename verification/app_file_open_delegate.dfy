/** The macOS application delegate's handling of `.torrent` files opened
    from Finder or the Dock: files that arrive before a store with a host is
    available wait in a queue, which is flushed once one is. */
module FileOpening {
  import opened SwiftText

  /** A file URL, reduced to what the delegate looks at: its
      `pathExtension`, as Foundation computes it from the path. */
  datatype Url = Url(path: string, pathExtension: string)

  /** `url.pathExtension.lowercased() == "torrent"`. */
  predicate IsTorrent(url: Url) {
    Lowercased(url.pathExtension) == "torrent"
  }

  /** `urls.filter { $0.pathExtension.lowercased() == "torrent" }`. */
  function Torrents(urls: seq<Url>): (r: seq<Url>)
    ensures |r| <= |urls|
    ensures forall i :: 0 <= i < |r| ==> IsTorrent(r[i])
  {
    if |urls| == 0 then []
    else if IsTorrent(urls[0]) then [urls[0]] + Torrents(urls[1..])
    else Torrents(urls[1..])
  }

  /** The filter keeps exactly the torrent files, as often as they occur. */
  lemma {:induction false} TorrentsCount(urls: seq<Url>, u: Url)
    ensures multiset(Torrents(urls))[u] == if IsTorrent(u) then multiset(urls)[u] else 0
  {
    if |urls| > 0 {
      var rest := urls[1..];
      TorrentsCount(rest, u);
      assert urls == [urls[0]] + rest;
      assert multiset(urls) == multiset{urls[0]} + multiset(rest);
      if IsTorrent(urls[0]) {
        assert multiset(Torrents(urls)) == multiset{urls[0]} + multiset(Torrents(rest));
      } else {
        assert Torrents(urls) == Torrents(rest);
      }
    }
  }

  /** The filter leaves a list of torrent files as it is. */
  lemma {:induction false} TorrentsOfTorrents(urls: seq<Url>)
    requires forall i :: 0 <= i < |urls| ==> IsTorrent(urls[i])
    ensures Torrents(urls) == urls
  {
    if |urls| > 0 {
      TorrentsOfTorrents(urls[1..]);
    }
  }

  /** The batches one after the other. */
  function Concat(batches: seq<seq<Url>>): seq<Url> {
    if |batches| == 0 then [] else Concat(batches[..|batches| - 1]) + batches[|batches| - 1]
  }

  lemma ConcatSnoc(batches: seq<seq<Url>>, batch: seq<Url>)
    ensures Concat(batches + [batch]) == Concat(batches) + batch
  {
    assert (batches + [batch])[..|batches|] == batches;
  }

  /** Processing a newly accepted batch at once keeps every accepted file
      accounted for. */
  lemma ProcessKeepsAccount(done: seq<seq<Url>>, pending: seq<Url>, accepted: seq<Url>, batch: seq<Url>)
    requires multiset(Concat(done)) + multiset(pending) == multiset(accepted)
    ensures multiset(Concat(done + [batch])) + multiset(pending) == multiset(accepted + batch)
  {
    ConcatSnoc(done, batch);
  }

  /** So does queueing it. */
  lemma QueueKeepsAccount(done: seq<seq<Url>>, pending: seq<Url>, accepted: seq<Url>, batch: seq<Url>)
    requires multiset(Concat(done)) + multiset(pending) == multiset(accepted)
    ensures multiset(Concat(done)) + multiset(pending + batch) == multiset(accepted + batch)
  {
  }

  /** So does processing the whole queue. */
  lemma FlushKeepsAccount(done: seq<seq<Url>>, pending: seq<Url>, accepted: seq<Url>)
    requires multiset(Concat(done)) + multiset(pending) == multiset(accepted)
    ensures multiset(Concat(done + [pending])) == multiset(accepted)
  {
    ConcatSnoc(done, pending);
  }

  class AppFileOpenDelegate {
    /** `pendingOpenFiles`: torrent files waiting for a store. */
    var pendingOpenFiles: seq<Url>
    /** `storeProvider` has been set by `configure(with:)`. */
    var configured: bool
    /** The configured store's `host` is not `nil`. */
    var hostPresent: bool
    /** The batches handed to `process(_:with:)`, oldest first. */
    var processed: seq<seq<Url>>
    /** Every torrent file the delegate has accepted, in arrival order. */
    ghost var accepted: seq<Url>

    /** `storeProvider?()` yields a store whose `host` is not `nil`. */
    predicate StoreReady()
      reads this
    {
      configured && hostPresent
    }

    /** Nothing waits while the store is ready: the state every flush
        leaves behind. */
    predicate Drained()
      reads this
    {
      StoreReady() ==> pendingOpenFiles == []
    }

    /** Only torrent files wait, and the files processed so far together
        with those waiting are exactly the accepted ones: none is lost and
        none is processed twice. (Not necessarily in arrival order: a file
        opened while the store is ready is processed at once, ahead of any
        that still wait.) */
    ghost predicate Valid()
      reads this
    {
      && (forall i :: 0 <= i < |pendingOpenFiles| ==> IsTorrent(pendingOpenFiles[i]))
      && multiset(Concat(processed)) + multiset(pendingOpenFiles) == multiset(accepted)
    }

    constructor()
      ensures Valid()
      ensures pendingOpenFiles == [] && processed == [] && accepted == []
      ensures !configured && !hostPresent
    {
      pendingOpenFiles := [];
      configured := false;
      hostPresent := false;
      processed := [];
      accepted := [];
    }

    /** `process(_:with:)`, reduced to recording the batch. */
    method Process(urls: seq<Url>)
      modifies this
      ensures processed == old(processed) + [urls]
      ensures pendingOpenFiles == old(pendingOpenFiles) && accepted == old(accepted)
      ensures configured == old(configured) && hostPresent == old(hostPresent)
    {
      processed := processed + [urls];
    }

    /** `enqueue(urls:)`: keep the torrent files; with none, do nothing;
        with a ready store, process them at once; otherwise queue them. */
    method Enqueue(urls: seq<Url>)
      requires Valid()
      modifies this
      ensures Valid()
      ensures accepted == old(accepted) + Torrents(urls)
      ensures configured == old(configured) && hostPresent == old(hostPresent)
      ensures Torrents(urls) == [] ==> pendingOpenFiles == old(pendingOpenFiles) && processed == old(processed)
      ensures Torrents(urls) != [] && StoreReady() ==>
        processed == old(processed) + [Torrents(urls)] && pendingOpenFiles == old(pendingOpenFiles)
      ensures Torrents(urls) != [] && !StoreReady() ==>
        processed == old(processed) && pendingOpenFiles == old(pendingOpenFiles) + Torrents(urls)
      ensures old(Drained()) ==> Drained()
    {
      var torrents := Torrents(urls);
      if torrents != [] {
        Admit(torrents);
      }
    }

    /** The part of `enqueue(urls:)` after the guard: process a non-empty
        batch of torrent files at once, or queue it. */
    method Admit(torrents: seq<Url>)
      requires Valid()
      requires forall i :: 0 <= i < |torrents| ==> IsTorrent(torrents[i])
      modifies this
      ensures Valid()
      ensures accepted == old(accepted) + torrents
      ensures configured == old(configured) && hostPresent == old(hostPresent)
      ensures StoreReady() ==> processed == old(processed) + [torrents] && pendingOpenFiles == old(pendingOpenFiles)
      ensures !StoreReady() ==> processed == old(processed) && pendingOpenFiles == old(pendingOpenFiles) + torrents
    {
      if StoreReady() {
        ProcessKeepsAccount(processed, pendingOpenFiles, accepted, torrents);
        Process(torrents);
      } else {
        QueueKeepsAccount(processed, pendingOpenFiles, accepted, torrents);
        pendingOpenFiles := pendingOpenFiles + torrents;
      }
      accepted := accepted + torrents;
    }

    /** `flushIfPossible()`: with files waiting and a ready store, process
        them all in one batch and empty the queue; otherwise do nothing. */
    method FlushIfPossible()
      requires Valid()
      modifies this
      ensures Valid()
      ensures accepted == old(accepted)
      ensures configured == old(configured) && hostPresent == old(hostPresent)
      ensures old(pendingOpenFiles) == [] || !StoreReady() ==>
        pendingOpenFiles == old(pendingOpenFiles) && processed == old(processed)
      ensures old(pendingOpenFiles) != [] && StoreReady() ==>
        processed == old(processed) + [old(pendingOpenFiles)] && pendingOpenFiles == []
    {
      if pendingOpenFiles == [] || !StoreReady() {
        return;
      }
      FlushKeepsAccount(processed, pendingOpenFiles, accepted);
      Process(pendingOpenFiles);
      pendingOpenFiles := [];
    }

    /** `application(_:openFile:)`: enqueue the one file and report success. */
    method OpenFile(url: Url) returns (handled: bool)
      requires Valid()
      modifies this
      ensures Valid()
      ensures handled
      ensures accepted == old(accepted) + Torrents([url])
      ensures configured == old(configured) && hostPresent == old(hostPresent)
      ensures !IsTorrent(url) ==> pendingOpenFiles == old(pendingOpenFiles) && processed == old(processed)
      ensures IsTorrent(url) && StoreReady() ==>
        processed == old(processed) + [[url]] && pendingOpenFiles == old(pendingOpenFiles)
      ensures IsTorrent(url) && !StoreReady() ==>
        processed == old(processed) && pendingOpenFiles == old(pendingOpenFiles) + [url]
      ensures old(Drained()) ==> Drained()
    {
      assert Torrents([url]) == if IsTorrent(url) then [url] else [];
      Enqueue([url]);
      handled := true;
    }

    /** `application(_:openFiles:)` and `application(_:open:)`: enqueue them all. */
    method OpenFiles(urls: seq<Url>)
      requires Valid()
      modifies this
      ensures Valid()
      ensures accepted == old(accepted) + Torrents(urls)
      ensures configured == old(configured) && hostPresent == old(hostPresent)
      ensures Torrents(urls) == [] ==> pendingOpenFiles == old(pendingOpenFiles) && processed == old(processed)
      ensures Torrents(urls) != [] && StoreReady() ==>
        processed == old(processed) + [Torrents(urls)] && pendingOpenFiles == old(pendingOpenFiles)
      ensures Torrents(urls) != [] && !StoreReady() ==>
        processed == old(processed) && pendingOpenFiles == old(pendingOpenFiles) + Torrents(urls)
      ensures old(Drained()) ==> Drained()
    {
      Enqueue(urls);
    }

    /** `applicationDidFinishLaunching(_:)` and `notifyStoreAvailable()`:
        flush. The waiting files go to the store in one batch, in order, when
        it is ready; otherwise nothing changes. */
    method NotifyStoreAvailable()
      requires Valid()
      modifies this
      ensures Valid() && Drained()
      ensures accepted == old(accepted)
      ensures configured == old(configured) && hostPresent == old(hostPresent)
      ensures old(pendingOpenFiles) == [] || !StoreReady() ==>
        pendingOpenFiles == old(pendingOpenFiles) && processed == old(processed)
      ensures old(pendingOpenFiles) != [] && StoreReady() ==>
        processed == old(processed) + [old(pendingOpenFiles)] && pendingOpenFiles == []
    {
      FlushIfPossible();
    }

    /** `configure(with:)`: remember the store, whose host is present or
        not, and flush: with a host, the waiting files go to it in one
        batch; without one, nothing else changes. */
    method Configure(storeHostPresent: bool)
      requires Valid()
      modifies this
      ensures Valid() && Drained()
      ensures configured && hostPresent == storeHostPresent
      ensures accepted == old(accepted)
      ensures old(pendingOpenFiles) == [] || !storeHostPresent ==>
        pendingOpenFiles == old(pendingOpenFiles) && processed == old(processed)
      ensures old(pendingOpenFiles) != [] && storeHostPresent ==>
        processed == old(processed) + [old(pendingOpenFiles)] && pendingOpenFiles == []
    {
      configured := true;
      hostPresent := storeHostPresent;
      FlushIfPossible();
    }

    /** The configured store's `host` is set. The subscription made by
        `configure(with:)` flushes, but a `@Published` property announces a
        change before storing it, so the flush still sees the old host: it
        sends the waiting files only if the store was ready before. */
    method HostChanged(present: bool)
      requires Valid()
      modifies this
      ensures Valid()
      ensures hostPresent == present && configured == old(configured)
      ensures accepted == old(accepted)
      ensures old(pendingOpenFiles) == [] || !old(StoreReady()) ==>
        pendingOpenFiles == old(pendingOpenFiles) && processed == old(processed)
      ensures old(pendingOpenFiles) != [] && old(StoreReady()) ==>
        processed == old(processed) + [old(pendingOpenFiles)] && pendingOpenFiles == []
    {
      if configured {
        FlushIfPossible();
      }
      hostPresent := present;
    }

    /** The host change as the subscription evidently means it: store the
        new host, then flush, so the flush sees it. Nothing is left waiting
        for a ready store. */
    method HostChangedThenFlush(present: bool)
      requires Valid()
      modifies this
      ensures Valid() && (configured ==> Drained())
      ensures hostPresent == present && configured == old(configured)
      ensures accepted == old(accepted)
      ensures old(pendingOpenFiles) == [] || !StoreReady() ==>
        pendingOpenFiles == old(pendingOpenFiles) && processed == old(processed)
      ensures old(pendingOpenFiles) != [] && StoreReady() ==>
        processed == old(processed) + [old(pendingOpenFiles)] && pendingOpenFiles == []
    {
      hostPresent := present;
      if configured {
        FlushIfPossible();
      }
    }
  }

  /** A file opened before the store has a host still waits after the host
      arrives, until something else flushes the queue. */
  method HostArrivalLeavesFileWaiting(url: Url) returns (d: AppFileOpenDelegate)
    requires IsTorrent(url)
    ensures fresh(d) && d.Valid() && !d.Drained()
    ensures d.StoreReady() && d.pendingOpenFiles == [url] && d.processed == []
  {
    d := new AppFileOpenDelegate();
    var handled := d.OpenFile(url);
    d.Configure(false);
    d.HostChanged(true);
  }

  /** With the host stored before the flush, the same file is processed as
      soon as the host arrives. */
  method HostArrivalProcessesFile(url: Url) returns (d: AppFileOpenDelegate)
    requires IsTorrent(url)
    ensures fresh(d) && d.Valid() && d.Drained()
    ensures d.StoreReady() && d.pendingOpenFiles == [] && d.processed == [[url]]
  {
    d := new AppFileOpenDelegate();
    var handled := d.OpenFile(url);
    d.Configure(false);
    assert d.pendingOpenFiles == [url] && d.processed == [];
    d.HostChangedThenFlush(true);
  }

  /** A file opened once the store is ready is processed at once, ahead of
      a file that has been waiting since before the host arrived. */
  method LaterFileOvertakesWaitingOne(first: Url, second: Url) returns (d: AppFileOpenDelegate)
    requires IsTorrent(first) && IsTorrent(second)
    ensures d.processed == [[second]] && d.pendingOpenFiles == [first]
  {
    d := HostArrivalLeavesFileWaiting(first);
    var handled := d.OpenFile(second);
  }

  /** `applicationShouldOpenUntitledFile(_:)`: never open an untitled window. */
  function ShouldOpenUntitledFile(): (open: bool)
    ensures !open
  {
    false
  }

  /** `applicationOpenUntitledFile(_:)`: report that none was opened. */
  function OpenUntitledFile(): (didOpen: bool)
    ensures !didOpen
  {
    false
  }

  /** `applicationShouldHandleReopen(_:hasVisibleWindows:)`: reopen handling
      follows whether windows are visible. */
  function ShouldHandleReopen(hasVisibleWindows: bool): (handle: bool)
    ensures handle == hasVisibleWindows
  {
    hasVisibleWindows
  }
}
