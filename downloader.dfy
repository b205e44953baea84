/** The download state machine (`DownloaderActor` of src/downloader.rs).
    `downloadStates` gives each video id one of three states: absent (never
    downloaded), `false` (pending) or `true` (ready). The `DownloadVideos`
    handler is split into its synchronous start step and the completion step
    its future runs later; youtube-dl is an attempt oracle. */
module Downloader {
  import opened Types

  /** The `for_each` of inserts: every id of the batch, in order, set to `v`. */
  function Marked(m: map<VideoId, bool>, ids: seq<VideoId>, v: bool): (r: map<VideoId, bool>)
    ensures r.Keys == m.Keys + (set k | k in ids)
    ensures forall k :: k in r ==> r[k] == (if k in ids then v else m[k])
  {
    if ids == [] then m else Marked(m, ids[..|ids| - 1], v)[ids[|ids| - 1] := v]
  }

  /** The `for_each` of the completion step: a `Video` keyed by each id. */
  function Registered(videos: map<VideoId, Video>, ids: seq<VideoId>): (r: map<VideoId, Video>)
    ensures r.Keys == videos.Keys + (set k | k in ids)
    ensures forall k :: k in r ==> r[k] == (if k in ids then Video(k) else videos[k])
  {
    if ids == [] then videos else Registered(videos, ids[..|ids| - 1])[ids[|ids| - 1] := Video(ids[|ids| - 1])]
  }

  /** One more id marked after a batch. */
  lemma MarkedSnoc(m: map<VideoId, bool>, ids: seq<VideoId>, x: VideoId, v: bool)
    ensures Marked(m, ids + [x], v) == Marked(m, ids, v)[x := v]
  {
    assert (ids + [x])[..|ids|] == ids;
  }

  /** One more id registered after a batch. */
  lemma RegisteredSnoc(videos: map<VideoId, Video>, ids: seq<VideoId>, x: VideoId)
    ensures Registered(videos, ids + [x]) == Registered(videos, ids)[x := Video(x)]
  {
    assert (ids + [x])[..|ids|] == ids;
  }

  lemma TakeSnoc<T>(s: seq<T>, i: nat)
    requires i < |s|
    ensures s[..i + 1] == s[..i] + [s[i]]
  {
  }

  /** `max_tries` of `download_videos`. */
  const MaxTries: nat := 5

  /** Some attempt among the first `MaxTries` succeeds. */
  ghost predicate RetriesSucceed(attempt: nat -> bool) {
    exists i :: 0 <= i < MaxTries && attempt(i)
  }

  /** `download_videos`: tries the whole batch up to five times and stops at
      the first success, returning the ids unchanged; `attempt(i)` is the
      outcome of try `i`. `tries` counts the attempts made. */
  method DownloadWithRetries(ids: seq<VideoId>, attempt: nat -> bool) returns (r: Result<seq<VideoId>, ()>, tries: nat)
    ensures 1 <= tries <= MaxTries
    ensures forall i :: 0 <= i < tries - 1 ==> !attempt(i)
    ensures r.Ok? <==> RetriesSucceed(attempt)
    ensures r.Ok? ==> r.value == ids && attempt(tries - 1)
    ensures r.Err? ==> r == Err(()) && tries == MaxTries && !attempt(tries - 1)
  {
    tries := 0;
    while tries < MaxTries
      invariant tries <= MaxTries
      invariant forall i :: 0 <= i < tries ==> !attempt(i)
    {
      tries := tries + 1;
      if attempt(tries - 1) {
        return Ok(ids), tries;
      }
    }
    r := Err(());
  }

  class DownloaderActor {
    var downloadStates: map<VideoId, bool>
    var videos: map<VideoId, Video>

    /** A video is only registered under an id that has a state, and under
        its own id. */
    ghost predicate Valid()
      reads this
    {
      videos.Keys <= downloadStates.Keys && forall id :: id in videos ==> videos[id] == Video(id)
    }

    constructor ()
      ensures Valid() && downloadStates == map[] && videos == map[]
    {
      downloadStates, videos := map[], map[];
    }

    /** The state of one id as `GetVideoPath` reports it. */
    function Status(id: VideoId): (s: DownloadVideoResult)
      reads this
      ensures s == NeverDownloaded <==> id !in downloadStates
      ensures s == AlreadyDownloaded <==> id in downloadStates && downloadStates[id]
      ensures s == DownloadPending <==> id in downloadStates && !downloadStates[id]
    {
      if id !in downloadStates then NeverDownloaded
      else if downloadStates[id] then AlreadyDownloaded
      else DownloadPending
    }

    /** Every id of the batch has a state, pending or ready. */
    predicate AllKnown(ids: seq<VideoId>)
      reads this
    {
      forall i :: 0 <= i < |ids| ==> ids[i] in downloadStates
    }

    /** `GetVideoPath`: `Ok` when every id is ready, otherwise the status of
        the first id, in request order, that is not. */
    function GetVideoPath(ids: seq<VideoId>): (r: Result<(), DownloadVideoResult>)
      reads this
      ensures r.Ok? <==> forall i :: 0 <= i < |ids| ==> ids[i] in downloadStates && downloadStates[ids[i]]
      ensures r.Err? ==> r.error == NeverDownloaded || r.error == DownloadPending
      ensures r.Err? ==> exists k :: 0 <= k < |ids| && r.error == Status(ids[k]) &&
                           forall i :: 0 <= i < k ==> Status(ids[i]) == AlreadyDownloaded
    {
      if ids == [] then Ok(())
      else if Status(ids[0]) != AlreadyDownloaded then Err(Status(ids[0]))
      else
        var rest := GetVideoPath(ids[1..]);
        assert rest.Err? ==> exists k :: 1 <= k < |ids| && rest.error == Status(ids[k]) &&
                               forall i :: 0 <= i < k ==> Status(ids[i]) == AlreadyDownloaded by {
          if rest.Err? {
            var k :| 0 <= k < |ids[1..]| && rest.error == Status(ids[1..][k]) &&
                     forall i :: 0 <= i < k ==> Status(ids[1..][i]) == AlreadyDownloaded;
            assert forall i :: 1 <= i < k + 1 ==> Status(ids[i]) == Status(ids[1..][i - 1]);
          }
        }
        rest
    }

    /** The synchronous step of `DownloadVideos`: a batch whose every id has
        a state changes nothing; otherwise every id of it becomes pending,
        ready ones included, and the download starts. */
    method StartDownload(ids: seq<VideoId>) returns (started: bool)
      requires Valid()
      modifies this`downloadStates
      ensures Valid()
      ensures started <==> !old(AllKnown(ids))
      ensures !started ==> downloadStates == old(downloadStates)
      ensures started ==> downloadStates == Marked(old(downloadStates), ids, false)
      ensures old(downloadStates).Keys <= downloadStates.Keys
    {
      started := exists i :: 0 <= i < |ids| && ids[i] !in downloadStates;
      if !started {
        return;
      }
      for i := 0 to |ids|
        invariant downloadStates == Marked(old(downloadStates), ids[..i], false)
      {
        TakeSnoc(ids, i);
        MarkedSnoc(old(downloadStates), ids[..i], ids[i], false);
        downloadStates := downloadStates[ids[i] := false];
      }
      assert ids[..|ids|] == ids;
    }

    /** The work on one downloaded id: its state becomes ready and its
        `Video` is registered under it. */
    method MarkReady(id: VideoId)
      requires Valid()
      modifies this
      ensures Valid()
      ensures downloadStates == old(downloadStates)[id := true] && videos == old(videos)[id := Video(id)]
    {
      downloadStates := downloadStates[id := true];
      videos := videos[id := Video(id)];
    }

    /** The completion step of `DownloadVideos`: after a successful download
        every id is ready and has its `Video`; after a failure nothing
        changes and the ids stay pending. */
    method CompleteDownload(ids: seq<VideoId>, outcome: Result<seq<VideoId>, ()>) returns (r: Result<(), ServerError>)
      requires Valid()
      requires outcome.Ok? ==> outcome.value == ids
      modifies this
      ensures Valid()
      ensures outcome.Ok? ==>
                r == Ok(()) && downloadStates == Marked(old(downloadStates), ids, true) &&
                videos == Registered(old(videos), ids)
      ensures outcome.Err? ==>
                r == Err(CommunicationError) && downloadStates == old(downloadStates) && videos == old(videos)
      ensures old(downloadStates).Keys <= downloadStates.Keys
    {
      if outcome.Err? {
        return Err(CommunicationError);
      }
      var done := outcome.value;
      for i := 0 to |done|
        invariant downloadStates == Marked(old(downloadStates), done[..i], true)
        invariant videos == Registered(old(videos), done[..i])
        invariant Valid()
      {
        TakeSnoc(done, i);
        MarkedSnoc(old(downloadStates), done[..i], done[i], true);
        RegisteredSnoc(old(videos), done[..i], done[i]);
        MarkReady(done[i]);
      }
      assert done[..|done|] == done;
      r := Ok(());
    }

    /** `DownloadVideos`, with the future run to completion straight away. */
    method HandleDownloadVideos(ids: seq<VideoId>, attempt: nat -> bool) returns (r: Result<(), ServerError>)
      requires Valid()
      modifies this
      ensures Valid()
      ensures old(AllKnown(ids)) ==>
                r == Ok(()) && downloadStates == old(downloadStates) && videos == old(videos)
      ensures !old(AllKnown(ids)) && RetriesSucceed(attempt) ==>
                r == Ok(()) && downloadStates == Marked(old(downloadStates), ids, true) &&
                videos == Registered(old(videos), ids)
      ensures !old(AllKnown(ids)) && !RetriesSucceed(attempt) ==>
                r == Err(CommunicationError) && downloadStates == Marked(old(downloadStates), ids, false) &&
                videos == old(videos)
      ensures old(downloadStates).Keys <= downloadStates.Keys
    {
      var started := StartDownload(ids);
      if !started {
        return Ok(());
      }
      var outcome, _ := DownloadWithRetries(ids, attempt);
      r := CompleteDownload(ids, outcome);
      MarkedTwice(old(downloadStates), ids, false, true);
    }
  }

  /** Marking a batch twice leaves the second value. */
  lemma MarkedTwice(m: map<VideoId, bool>, ids: seq<VideoId>, v: bool, w: bool)
    ensures Marked(Marked(m, ids, v), ids, w) == Marked(m, ids, w)
  {
  }

  /** A failed first request followed by the same request: the second call
      is answered `Ok` without a download, and the id reports pending. */
  method FailureThenReissue(id: VideoId) returns (first: Result<(), ServerError>, second: Result<(), ServerError>,
                                                   status: Result<(), DownloadVideoResult>)
    ensures first == Err(CommunicationError)
    ensures second == Ok(())
    ensures status == Err(DownloadPending)
  {
    var d := new DownloaderActor();
    first := d.HandleDownloadVideos([id], (i: nat) => false);
    second := d.HandleDownloadVideos([id], (i: nat) => true);
    status := d.GetVideoPath([id]);
  }
}
