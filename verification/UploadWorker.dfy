/** The vehicle's upload loop over a network that loses, delays and repeats. */
module UploadWorker {
  import opened ControlTypes
  import opened ChunkUpload

  /** What happens around one attempt: earlier requests may arrive late, this one
      may be turned away, lost on the way or lose its answer. */
  datatype Fate = Fate(
    late: seq<nat>, overloaded: bool, arrives: bool, answered: bool,
    idle: bool, expired: bool, disk: Disk, stop: bool)

  datatype Outcome = Completed | GaveWay | Stopped | GaveUp

  predicate Grown(before: Files, after: Files) {
    forall name | name in before :: name in after && before[name] <= after[name]
  }

  lemma RequestGrows(job: Job, request: Request, idle: bool, expired: bool, disk: Disk)
    ensures Grown(job.files, AfterRequest(job, request, idle, expired, disk).0.files)
  {
    if request.Append? {
      AppendGrows(job.files, request.chunk, disk);
    }
  }

  /** What an acceptance tells the sender about what is stored. */
  ghost predicate Confirms(snapshot: Files, status: Status, request: Request, job: Job)
    requires Snapshot(snapshot) && Honest(snapshot, status, request)
  {
    match request
    case Append(chunk) =>
      && chunk.name in job.files
      && NextOffset(snapshot[chunk.name], chunk.offset) <= |job.files[chunk.name]|
    case Finish(report) => job.manifest == Some(Reported(report)) && job.files == snapshot
    case Fail => true
  }

  /** An accepted final report confirms what it says, and so does an accepted chunk
      unless its write was lost. */
  lemma AcceptanceConfirms(
    snapshot: Files, status: Status, job: Job, request: Request, idle: bool, expired: bool, disk: Disk)
    requires Snapshot(snapshot) && Inv(snapshot, status, job) && Honest(snapshot, status, request)
    requires AfterRequest(job, request, idle, expired, disk).1 == Accepted
    requires request.Append? ==> !LostIn(job.files, request.chunk, disk)
    ensures Confirms(snapshot, status, request, AfterRequest(job, request, idle, expired, disk).0)
  {
    RequestKeepsInv(snapshot, status, job, request, idle, expired, disk);
    if request.Append? {
      AcceptedIsThere(snapshot, job.files, request.chunk.name, request.chunk.offset, disk);
    }
  }

  /** Once everything has arrived the final report is never refused. */
  lemma FinishIsNotRefused(
    snapshot: Files, status: Status, job: Job, idle: bool, expired: bool, disk: Disk)
    requires Snapshot(snapshot) && status != OtherStatus && Inv(snapshot, status, job) && job.files == snapshot
    ensures AfterRequest(job, Finish(ReportOf(snapshot, status)), idle, expired, disk).1 in {Accepted, Cancelled}
  {
  }

  // ---------------------------------------------------------------------
  // An exchange that nothing disturbs
  // ---------------------------------------------------------------------

  /** Nothing else arrives, and the request and its answer get through. */
  predicate Undisturbed(fate: Fate) {
    && fate.late == [] && !fate.overloaded && fate.arrives && fate.answered
    && fate.idle && !fate.expired && fate.disk.Healthy? && !fate.stop
  }

  /** The export is still going on and no file breaks off inside a chunk. */
  ghost predicate OnTrack(snapshot: Files, job: Job)
    requires Snapshot(snapshot)
  {
    && job.manifest.None?
    && forall name: LogName | name.Allowed() ::
         |Stored(job.files, name)| % CHUNK_BYTES == 0 || |Stored(job.files, name)| == |snapshot[name]|
  }

  /** An undisturbed chunk at or before the end of its file is accepted. */
  lemma ChunkIsAccepted(snapshot: Files, status: Status, job: Job, name: LogName, offset: nat)
    requires Snapshot(snapshot) && Inv(snapshot, status, job) && OnTrack(snapshot, job)
    requires name.Allowed() && offset % CHUNK_BYTES == 0 && offset <= |Stored(job.files, name)|
    requires offset <= |snapshot[name]|
    ensures var chunk := ChunkAt(snapshot, name, offset);
      var (after, reply) := AfterRequest(job, Append(chunk), true, false, Healthy);
      && reply == Accepted && OnTrack(snapshot, after)
      && NextOffset(snapshot[name], offset) <= |Stored(after.files, name)|
  {
    ChunkReads(snapshot, name, offset);
    var next := NextOffset(snapshot[name], offset);
    if name in job.files && next <= |job.files[name]| {
      ResendingIsHarmless(snapshot, job.files, name, offset, Healthy);
    } else {
      SameMultiple(offset, |Stored(job.files, name)|);
      assert |Stored(job.files, name)| == offset;
    }
    AcceptedIsThere(snapshot, job.files, name, offset, Healthy);
  }

  lemma SameMultiple(low: nat, high: nat)
    requires low % CHUNK_BYTES == 0 && high % CHUNK_BYTES == 0
    ensures low <= high < low + CHUNK_BYTES ==> high == low
    ensures (low + CHUNK_BYTES) % CHUNK_BYTES == 0
  {
  }

  class Worker {
    const job: ExportJob
    const fates: nat -> Fate
    const snapshot: Files
    const status: Status
    var attempts: nat
    var sent: seq<Request>

    ghost predicate Valid()
      reads this, job
    {
      && Snapshot(snapshot) && status != OtherStatus
      && Inv(snapshot, status, job.View())
      && (forall i | 0 <= i < |sent| :: Honest(snapshot, status, sent[i]))
    }

    /** No write is lost during the attempts from number `from` up to `to`. */
    ghost predicate NothingLost(from: nat, to: nat) {
      forall k | from <= k < to :: !fates(k).disk.Lost?
    }

    /** The attempts from number `from` up to `to`, and the look at the stop signal
        after them, are undisturbed. */
    ghost predicate Calm(from: nat, to: nat) {
      forall k | from <= k <= to :: Undisturbed(fates(k))
    }

    constructor (job: ExportJob, fates: nat -> Fate, snapshot: Files, status: Status)
      requires Snapshot(snapshot) && status != OtherStatus && job.View() == NEW_JOB
      ensures Valid() && this.job == job && this.snapshot == snapshot && this.status == status
      ensures OnTrack(snapshot, job.View())
    {
      this.job, this.fates, this.snapshot, this.status := job, fates, snapshot, status;
      attempts, sent := 0, [];
    }

    /** One HTTP exchange; None is a lost one. */
    method Attempt(request: Request) returns (reply: Option<Reply>)
      requires Valid() && Honest(snapshot, status, request)
      modifies this, job
      ensures Valid() && Grown(old(job.files), job.files) && attempts == old(attempts) + 1
      ensures reply == Some(Accepted) && (request.Append? ==> !fates(old(attempts)).disk.Lost?) ==>
        Confirms(snapshot, status, request, job.View())
      ensures Undisturbed(fates(old(attempts))) ==>
        reply.Some? && (job.View(), reply.value) == AfterRequest(old(job.View()), request, true, false, Healthy)
    {
      var fate := fates(attempts);
      attempts := attempts + 1;
      sent := sent + [request];
      for k := 0 to |fate.late|
        invariant Valid() && Grown(old(job.files), job.files) && attempts == old(attempts) + 1
        invariant |sent| > 0 && sent[|sent| - 1] == request
        invariant fate.late == [] ==> job.View() == old(job.View())
      {
        if fate.late[k] < |sent| {
          var unread := Deliver(sent[fate.late[k]], fate);
        }
      }
      if fate.overloaded {
        return Some(Unavailable);
      }
      if !fate.arrives {
        return None;
      }
      var answer := Deliver(request, fate);
      return if fate.answered then Some(answer) else None;
    }

    method Deliver(request: Request, fate: Fate) returns (reply: Reply)
      requires Valid() && Honest(snapshot, status, request)
      modifies job
      ensures Valid() && Grown(old(job.files), job.files)
      ensures (job.View(), reply) == AfterRequest(old(job.View()), request, fate.idle, fate.expired, fate.disk)
      ensures reply == Accepted && (request.Append? ==> !fate.disk.Lost?) ==>
        Confirms(snapshot, status, request, job.View())
    {
      ghost var before := job.View();
      RequestGrows(before, request, fate.idle, fate.expired, fate.disk);
      RequestKeepsInv(snapshot, status, before, request, fate.idle, fate.expired, fate.disk);
      reply := job.Vehicle(request, fate.idle, fate.expired, fate.disk);
      if reply == Accepted && (request.Append? ==> !fate.disk.Lost?) {
        AcceptanceConfirms(snapshot, status, before, request, fate.idle, fate.expired, fate.disk);
      }
    }

    /** Three attempts at most; None is the exception that ends the upload. */
    method Call(request: Request) returns (reply: Option<Reply>)
      requires Valid() && Honest(snapshot, status, request)
      modifies this, job
      ensures Valid() && Grown(old(job.files), job.files) && attempts > old(attempts)
      ensures reply.Some? ==> reply.value in {Accepted, Cancelled}
      ensures reply == Some(Accepted) && (request.Append? ==> NothingLost(old(attempts), attempts)) ==>
        Confirms(snapshot, status, request, job.View())
      ensures
        var (after, answer) := AfterRequest(old(job.View()), request, true, false, Healthy);
        Undisturbed(fates(old(attempts))) && answer in {Accepted, Cancelled} ==>
          reply == Some(answer) && job.View() == after && attempts == old(attempts) + 1
    {
      var attempt := 0;
      while true
        invariant 0 <= attempt <= 2 && attempts == old(attempts) + attempt
        invariant Valid() && Grown(old(job.files), job.files)
        invariant attempt == 0 ==> job.View() == old(job.View())
        invariant attempt > 0 ==>
          !Undisturbed(fates(old(attempts)))
          || AfterRequest(old(job.View()), request, true, false, Healthy).1 !in {Accepted, Cancelled}
        decreases 3 - attempt
      {
        var answer := Attempt(request);
        if answer == Some(Accepted) || answer == Some(Cancelled) {
          return answer;
        }
        if answer == Some(Refused) {
          return None;
        }
        if attempt >= 2 || fates(attempts).stop {
          return None;
        }
        attempt := attempt + 1;
      }
    }

    /** One chunk of a file. */
    method SendChunk(name: LogName, offset: nat, next: nat) returns (reply: Option<Reply>)
      requires Valid() && name.Allowed() && offset <= |snapshot[name]| && offset % CHUNK_BYTES == 0
      requires next == NextOffset(snapshot[name], offset)
      modifies this, job
      ensures Valid() && Grown(old(job.files), job.files) && attempts > old(attempts)
      ensures reply.Some? ==> reply.value in {Accepted, Cancelled}
      ensures reply == Some(Accepted) && NothingLost(old(attempts), attempts) ==>
        name in job.files && snapshot[name][..next] <= job.files[name]
      ensures
        && OnTrack(snapshot, old(job.View())) && offset <= |Stored(old(job.files), name)|
        && Undisturbed(fates(old(attempts)))
        ==>
          reply == Some(Accepted) && OnTrack(snapshot, job.View()) && next <= |Stored(job.files, name)|
    {
      var text := EncodeHex(snapshot[name][offset..next]);
      ghost var before := job.View();
      if OnTrack(snapshot, before) && offset <= |Stored(before.files, name)| {
        ChunkIsAccepted(snapshot, status, before, name, offset);
      }
      reply := Call(Append(Chunk(name, offset, text)));
      PrefixHasPrefix(snapshot, job.files, name, next);
    }

    lemma PrefixHasPrefix(snapshot: Files, files: Files, name: LogName, next: nat)
      requires IsPrefix(files, snapshot) && name in snapshot && next <= |snapshot[name]|
      ensures name in files && next <= |files[name]| ==> snapshot[name][..next] <= files[name]
      ensures snapshot[name][..|snapshot[name]|] == snapshot[name]
    {
    }

    /** Sends one file chunk by chunk, from the start. A completed file has arrived
        unless a write was lost; an undisturbed one is completed. */
    method SendFile(name: LogName) returns (outcome: Outcome)
      requires Valid() && name.Allowed()
      modifies this, job
      ensures Valid() && Grown(old(job.files), job.files) && old(attempts) <= attempts
      ensures outcome == Completed && NothingLost(old(attempts), attempts) ==>
        name in job.files && job.files[name] == snapshot[name]
      ensures OnTrack(snapshot, old(job.View())) && Calm(old(attempts), attempts) ==>
        outcome == Completed && OnTrack(snapshot, job.View())
    {
      var file := snapshot[name];
      var offset := 0;
      while true
        invariant Valid() && Grown(old(job.files), job.files)
        invariant 0 <= offset <= |file| && offset % CHUNK_BYTES == 0 && old(attempts) <= attempts
        invariant OnTrack(snapshot, old(job.View())) && Calm(old(attempts), attempts) ==>
          OnTrack(snapshot, job.View()) && offset <= |Stored(job.files, name)|
        decreases |file| - offset
      {
        if fates(attempts).stop {
          return Stopped;
        }
        var next := if |file| - offset < CHUNK_BYTES then |file| else offset + CHUNK_BYTES;
        var reply := SendChunk(name, offset, next);
        if reply.None? {
          return GaveUp;
        }
        if reply == Some(Cancelled) {
          return GaveWay;
        }
        if next == |file| {
          return Completed;
        }
        SameMultiple(offset, offset);
        offset := next;
      }
    }

    /** The whole upload. Completing it means that the server holds the snapshot; an
        undisturbed upload is completed. */
    method Upload() returns (outcome: Outcome)
      requires Valid()
      modifies this, job
      ensures Valid()
      ensures outcome == Completed ==>
        job.files == snapshot && job.manifest == Some(Reported(ReportOf(snapshot, status)))
      ensures OnTrack(snapshot, old(job.View())) && Calm(old(attempts), attempts) ==> outcome == Completed
    {
      var report := ReportOf(snapshot, status);
      outcome := Completed;
      for k := 0 to |report.files|
        invariant Valid() && old(attempts) <= attempts
        invariant OnTrack(snapshot, old(job.View())) && Calm(old(attempts), attempts) ==>
          && outcome == Completed && OnTrack(snapshot, job.View())
          && forall j | 0 <= j < k :: Arrived(report.files[j].name)
      {
        if outcome == Completed {
          ghost var before := job.files;
          outcome := SendFile(report.files[k].name);
          StillArrived(before);
        }
      }
      if outcome == Completed {
        if forall j | 0 <= j < |report.files| :: Arrived(report.files[j].name) {
          assert Arrived(report.files[0].name) && Arrived(report.files[1].name);
          assert job.files == snapshot;
          FinishIsNotRefused(snapshot, status, job.View(), true, false, Healthy);
        }
        var reply := Call(Finish(report));
        outcome := if reply.None? then GaveUp else if reply == Some(Accepted) then Completed else GaveWay;
      }
      if outcome == GaveUp && !fates(attempts).stop {
        var ignored := Call(Fail);
      }
    }

    ghost predicate Arrived(name: LogName)
      reads job
    {
      name in job.files && name in snapshot && job.files[name] == snapshot[name]
    }

    /** What has arrived stays. */
    lemma StillArrived(before: Files)
      requires Valid() && Grown(before, job.files)
      ensures forall name | name in before && name in snapshot && before[name] == snapshot[name] :: Arrived(name)
    {
    }
  }
}
