/** The resumable upload of a vehicle's log snapshot: hexadecimal chunks, a server
    job that appends them, and a worker that retries lost requests. */
module ChunkUpload {
  import opened Bytes
  import opened ControlTypes

  const CHUNK_BYTES: int := 256 * 1024

  // ---------------------------------------------------------------------
  // Hexadecimal
  // ---------------------------------------------------------------------

  const DIGITS: string := "0123456789abcdef"

  function Digit(value: int): char
    requires 0 <= value < 16
  {
    if value < 10 then '0' + value as char else 'a' + (value - 10) as char
  }

  function DigitValue(c: char): (value: Option<int>)
    ensures value.Some? ==> 0 <= value.value < 16
  {
    if '0' <= c <= '9' then Some(c as int - '0' as int)
    else if 'a' <= c <= 'f' then Some(c as int - 'a' as int + 10)
    else None
  }

  lemma DigitsInvert(value: int, c: char)
    ensures 0 <= value < 16 ==> DigitValue(Digit(value)) == Some(value)
    ensures DigitValue(c).Some? ==> Digit(DigitValue(c).value) == c
  {
  }

  function Hex(bytes: seq<Byte>): string {
    if bytes == [] then ""
    else Hex(bytes[..|bytes| - 1]) + [Digit(bytes[|bytes| - 1] / 16), Digit(bytes[|bytes| - 1] % 16)]
  }

  function Pairs(text: string): Option<seq<Byte>>
    requires |text| % 2 == 0
  {
    if text == "" then Some([])
    else
      var n := |text|;
      var front, high, low := Pairs(text[..n - 2]), DigitValue(text[n - 2]), DigitValue(text[n - 1]);
      if front.None? || high.None? || low.None? then None
      else Some(front.value + [high.value * 16 + low.value])
  }

  /** A chunk's text is refused when it is too long, of odd length or not
      lower-case hexadecimal. */
  function Unhex(text: string): Option<seq<Byte>> {
    if |text| <= CHUNK_BYTES * 2 && |text| % 2 == 0 then Pairs(text) else None
  }

  lemma {:induction false} HexThenPairs(bytes: seq<Byte>)
    ensures |Hex(bytes)| == 2 * |bytes| && |Hex(bytes)| % 2 == 0
    ensures Pairs(Hex(bytes)) == Some(bytes)
  {
    if bytes != [] {
      var n := |bytes| - 1;
      HexThenPairs(bytes[..n]);
      assert Hex(bytes)[..|Hex(bytes)| - 2] == Hex(bytes[..n]);
      DigitsInvert(bytes[n] / 16, 'x');
      DigitsInvert(bytes[n] % 16, 'x');
      assert bytes == bytes[..n] + [bytes[n]];
    }
  }

  lemma {:induction false} PairsThenHex(text: string)
    requires |text| % 2 == 0 && Pairs(text).Some?
    ensures Hex(Pairs(text).value) == text
  {
    if text != "" {
      var n := |text|;
      PairsThenHex(text[..n - 2]);
      var bytes := Pairs(text).value;
      var front := Pairs(text[..n - 2]).value;
      assert bytes[..|bytes| - 1] == front;
      PairInverts(text[n - 2], text[n - 1]);
      assert text == text[..n - 2] + [text[n - 2], text[n - 1]];
    }
  }

  lemma PairInverts(high: char, low: char)
    requires DigitValue(high).Some? && DigitValue(low).Some?
    ensures var b := DigitValue(high).value * 16 + DigitValue(low).value;
      b < 256 && Digit(b / 16) == high && Digit(b % 16) == low
  {
    DigitsInvert(0, high);
    DigitsInvert(0, low);
  }

  /** What a sender encodes the receiver reads back, up to a chunk's size. */
  lemma {:induction false} UnhexOfHex(bytes: seq<Byte>)
    ensures Unhex(Hex(bytes)) == if |bytes| <= CHUNK_BYTES then Some(bytes) else None
  {
    HexThenPairs(bytes);
  }

  /** No two texts mean the same bytes. */
  lemma HexOfUnhex(text: string)
    requires Unhex(text).Some?
    ensures Hex(Unhex(text).value) == text
  {
    PairsThenHex(text);
  }

  lemma HexNext(bytes: seq<Byte>, i: nat)
    requires i < |bytes|
    ensures Hex(bytes[..i + 1]) == Hex(bytes[..i]) + [DIGITS[bytes[i] / 16]] + [DIGITS[bytes[i] % 16]]
  {
    assert bytes[..i + 1][..i] == bytes[..i];
  }

  method EncodeHex(bytes: seq<Byte>) returns (text: string)
    ensures text == Hex(bytes)
  {
    text := "";
    for i := 0 to |bytes|
      invariant text == Hex(bytes[..i])
    {
      HexNext(bytes, i);
      text := text + [DIGITS[bytes[i] / 16]];
      text := text + [DIGITS[bytes[i] % 16]];
    }
    assert bytes[..|bytes|] == bytes;
  }

  method DecodeHex(text: string) returns (bytes: Option<seq<Byte>>)
    ensures bytes == Unhex(text)
  {
    if !(|text| <= CHUNK_BYTES * 2 && |text| % 2 == 0) {
      return None;
    }
    var decoded: seq<Byte> := [];
    var i := 0;
    while i < |text|
      invariant 0 <= i <= |text| && i % 2 == 0
      invariant Pairs(text[..i]) == Some(decoded)
    {
      assert text[..i + 2][..i] == text[..i];
      var high, low := DigitValue(text[i]), DigitValue(text[i + 1]);
      if high.None? || low.None? {
        BadPrefix(text, i + 2);
        return None;
      }
      decoded := decoded + [high.value * 16 + low.value];
      i := i + 2;
    }
    assert text[..|text|] == text;
    return Some(decoded);
  }

  lemma {:induction false} BadPrefix(text: string, n: nat)
    requires n <= |text| && |text| % 2 == 0 && n % 2 == 0 && Pairs(text[..n]).None?
    ensures Pairs(text).None?
    decreases |text|
  {
    if n == |text| {
      assert text[..n] == text;
    } else {
      assert text[..|text| - 2][..n] == text[..n];
      BadPrefix(text[..|text| - 2], n);
    }
  }

  // ---------------------------------------------------------------------
  // The server's job
  // ---------------------------------------------------------------------

  datatype LogName = RuntimeLog | VcuCan | OtherName(name: string)
  {
    predicate Allowed() {
      RuntimeLog? || VcuCan?
    }
  }

  datatype Chunk = Chunk(name: LogName, offset: nat, text: string)

  datatype Entry = Entry(name: LogName, bytes: nat)

  datatype Status = Available | Partial | OtherStatus

  datatype Report = Report(files: seq<Entry>, status: Status)

  datatype Reason = UploadTimeout | NewControlSession | WorkerFailed

  /** How an upload ended: with the worker's own report, or with what had arrived. */
  datatype Manifest = Reported(report: Report) | Missing(reason: Reason, kept: seq<Entry>)

  type Files = map<LogName, seq<Byte>>

  datatype Job = Job(files: Files, manifest: Option<Manifest>, counted: nat)

  const NEW_JOB: Job := Job(map[], None, 0)

  datatype Request = Append(chunk: Chunk) | Finish(report: Report) | Fail

  /** Refused is a status the worker does not retry, Unavailable one it does. */
  datatype Reply = Accepted | Cancelled | Refused | Unavailable

  /** What the file system does to the next chunk: all is well; it cannot be asked
      at all; the file cannot be opened; the write is seen to fail after some
      bytes; it only fails, unseen, when the stream is closed; or the new size
      cannot be read back. */
  datatype Disk = Healthy | Broken | CannotOpen | Short(written: nat) | Lost(written: nat) | Unmeasured

  function Stored(files: Files, name: LogName): seq<Byte> {
    if name in files then files[name] else []
  }

  predicate Resent(files: Files, name: LogName, offset: nat, data: seq<Byte>) {
    name in files && offset <= |files[name]| && |data| <= |files[name]| - offset
  }

  function AfterAppend(files: Files, chunk: Chunk, disk: Disk): (Files, Reply) {
    var data := Unhex(chunk.text);
    if data.None? || chunk.offset > FILE_LIMIT || |data.value| > FILE_LIMIT - chunk.offset then (files, Refused)
    else if disk.Broken? then (files, Unavailable)
    else if Resent(files, chunk.name, chunk.offset, data.value) then
      (files,
       if files[chunk.name][chunk.offset..chunk.offset + |data.value|] == data.value then Accepted else Refused)
    else if |Stored(files, chunk.name)| != chunk.offset then (files, Refused)
    else if disk.CannotOpen? then (files, Refused)
    else if disk.Short? && disk.written < |data.value| then
      (files[chunk.name := Stored(files, chunk.name) + data.value[..disk.written]], Refused)
    else if disk.Lost? && disk.written < |data.value| then
      (files[chunk.name := Stored(files, chunk.name) + data.value[..disk.written]], Accepted)
    else
      (files[chunk.name := Stored(files, chunk.name) + data.value],
       if disk.Unmeasured? then Unavailable else Accepted)
  }

  /** The chunk continues its file. */
  predicate Continues(files: Files, chunk: Chunk) {
    var data := Unhex(chunk.text);
    && data.Some? && chunk.offset <= FILE_LIMIT && |data.value| <= FILE_LIMIT - chunk.offset
    && !Resent(files, chunk.name, chunk.offset, data.value)
    && |Stored(files, chunk.name)| == chunk.offset
  }

  predicate Listed(files: Files, e: Entry) {
    e.bytes <= FILE_LIMIT && e.name in files && |files[e.name]| == e.bytes
  }

  predicate ReportFits(files: Files, report: Report) {
    && |report.files| == 2
    && report.files[0].name.Allowed() && report.files[1].name.Allowed()
    && report.files[0].name != report.files[1].name
    && Listed(files, report.files[0]) && Listed(files, report.files[1])
    && report.status != OtherStatus
  }

  function Kept(files: Files): seq<Entry> {
    (if RuntimeLog in files then [Entry(RuntimeLog, |files[RuntimeLog]|)] else [])
    + (if VcuCan in files then [Entry(VcuCan, |files[VcuCan]|)] else [])
  }

  function Failed(job: Job, reason: Reason): Job {
    job.(manifest := Some(Missing(reason, Kept(job.files))))
  }

  function Expired(job: Job, expired: bool): Job {
    if expired && job.manifest.None? then Failed(job, UploadTimeout) else job
  }

  /** `idle` says that the vehicle has no open control session. */
  function AfterRequest(before: Job, request: Request, idle: bool, expired: bool, disk: Disk): (Job, Reply) {
    var job := Expired(before, expired);
    if request.Finish? && job.manifest == Some(Reported(request.report)) then (job, Accepted)
    else if job.manifest.Some? then (job, if job.manifest.value.Missing? then Cancelled else Refused)
    else if !idle then (Failed(job, NewControlSession), Cancelled)
    else
      match request
      case Fail => (Failed(job, WorkerFailed), Accepted)
      case Append(chunk) =>
        if !chunk.name.Allowed() then (job, Refused)
        else
          var (files, reply) := AfterAppend(job.files, chunk, disk);
          (if reply == Accepted then
             AppendGrows(job.files, chunk, disk);
             job.(files := files, counted := job.counted + |files[chunk.name]| - |Stored(job.files, chunk.name)|)
           else job.(files := files),
           reply)
      case Finish(report) =>
        if ReportFits(job.files, report) then (job.(manifest := Some(Reported(report))), Accepted)
        else (job, Refused)
  }

  lemma AppendGrows(files: Files, chunk: Chunk, disk: Disk)
    ensures var (after, reply) := AfterAppend(files, chunk, disk);
      && Stored(files, chunk.name) <= Stored(after, chunk.name)
      && (forall name | name in after && name != chunk.name :: name in files && after[name] == files[name])
      && (forall name | name in files :: name in after)
      && (reply == Accepted ==> chunk.name in after)
  {
  }

  // ---------------------------------------------------------------------
  // The job updated in place
  // ---------------------------------------------------------------------

  class ExportJob {
    var files: map<LogName, seq<Byte>>
    var manifest: Option<Manifest>
    var counted: nat

    ghost function View(): Job
      reads this
    {
      Job(files, manifest, counted)
    }

    constructor ()
      ensures View() == NEW_JOB
    {
      files, manifest, counted := map[], None, 0;
    }

    method FailVehicle(reason: Reason)
      modifies this`manifest
      ensures View() == Failed(old(View()), reason)
    {
      var names := [RuntimeLog, VcuCan];
      var kept: seq<Entry> := [];
      for i := 0 to |names|
        invariant i == 0 ==> kept == []
        invariant i == 1 ==> kept == if RuntimeLog in files then [Entry(RuntimeLog, |files[RuntimeLog]|)] else []
        invariant i == 2 ==> kept == Kept(files)
      {
        if names[i] in files {
          kept := kept + [Entry(names[i], |files[names[i]]|)];
        }
      }
      manifest := Some(Missing(reason, kept));
    }

    method ExpireVehicle(expired: bool)
      modifies this`manifest
      ensures View() == Expired(old(View()), expired)
    {
      if manifest.Some? {
        return;
      }
      if expired {
        FailVehicle(UploadTimeout);
      }
    }

    method AppendChunk(chunk: Chunk, disk: Disk) returns (reply: Reply)
      modifies this`files
      ensures (files, reply) == AfterAppend(old(files), chunk, disk)
    {
      var data := DecodeHex(chunk.text);
      if data.None? || !(chunk.offset <= FILE_LIMIT && |data.value| <= FILE_LIMIT - chunk.offset) {
        return Refused;
      }
      if disk.Broken? {
        return Unavailable;
      }
      var name := chunk.name;
      var size := if name in files then |files[name]| else 0;
      if name in files && chunk.offset <= size && |data.value| <= size - chunk.offset {
        var existing := files[name][chunk.offset..chunk.offset + |data.value|];
        return if existing == data.value then Accepted else Refused;
      }
      if size != chunk.offset {
        return Refused;
      }
      if disk.CannotOpen? {
        return Refused;
      }
      var stored := if name in files then files[name] else [];
      if (disk.Short? || disk.Lost?) && disk.written < |data.value| {
        files := files[name := stored + data.value[..disk.written]];
        return if disk.Short? then Refused else Accepted;
      }
      files := files[name := stored + data.value];
      return if disk.Unmeasured? then Unavailable else Accepted;
    }

    method CheckReport(report: Report) returns (ok: bool)
      ensures ok == ReportFits(files, report)
    {
      if |report.files| != 2 {
        return false;
      }
      var names: seq<LogName> := [];
      for i := 0 to |report.files|
        invariant |names| == i && forall k | 0 <= k < i :: names[k] == report.files[k].name
        invariant forall k | 0 <= k < i :: report.files[k].name.Allowed() && Listed(files, report.files[k])
        invariant i == 2 ==> report.files[0].name != report.files[1].name
      {
        var e := report.files[i];
        if !e.name.Allowed() || e.name in names {
          return false;
        }
        names := names + [e.name];
        if !(e.bytes <= FILE_LIMIT && e.name in files && |files[e.name]| == e.bytes) {
          return false;
        }
      }
      return report.status != OtherStatus;
    }

    method Vehicle(request: Request, idle: bool, expired: bool, disk: Disk) returns (reply: Reply)
      modifies this
      ensures (View(), reply) == AfterRequest(old(View()), request, idle, expired, disk)
    {
      ExpireVehicle(expired);
      if request.Finish? && manifest == Some(Reported(request.report)) {
        return Accepted;
      }
      if manifest.Some? && manifest.value.Missing? {
        return Cancelled;
      }
      if manifest.Some? {
        return Refused;
      }
      if !idle {
        FailVehicle(NewControlSession);
        return Cancelled;
      }
      match request
      case Fail =>
        FailVehicle(WorkerFailed);
        return Accepted;
      case Append(chunk) =>
        if !chunk.name.Allowed() {
          return Refused;
        }
        var before := if chunk.name in files then |files[chunk.name]| else 0;
        AppendGrows(files, chunk, disk);
        reply := AppendChunk(chunk, disk);
        if reply == Accepted {
          counted := counted + |files[chunk.name]| - before;
        }
      case Finish(report) =>
        var ok := CheckReport(report);
        if !ok {
          return Refused;
        }
        manifest := Some(Reported(report));
        return Accepted;
    }
  }

  // ---------------------------------------------------------------------
  // A worker with a snapshot
  // ---------------------------------------------------------------------

  /** The worker collects exactly the two allowed files, within the size limit. */
  predicate Snapshot(files: Files) {
    files.Keys == {RuntimeLog, VcuCan} && |files[RuntimeLog]| <= FILE_LIMIT && |files[VcuCan]| <= FILE_LIMIT
  }

  function ReportOf(snapshot: Files, status: Status): Report
    requires Snapshot(snapshot)
  {
    Report([Entry(RuntimeLog, |snapshot[RuntimeLog]|), Entry(VcuCan, |snapshot[VcuCan]|)], status)
  }

  function NextOffset(file: seq<Byte>, offset: nat): nat
    requires offset <= |file|
  {
    if |file| - offset < CHUNK_BYTES then |file| else offset + CHUNK_BYTES
  }

  function ChunkAt(snapshot: Files, name: LogName, offset: nat): Chunk
    requires Snapshot(snapshot) && name.Allowed() && offset <= |snapshot[name]|
  {
    Chunk(name, offset, Hex(snapshot[name][offset..NextOffset(snapshot[name], offset)]))
  }

  /** What a worker with this snapshot may ever send. */
  ghost predicate Honest(snapshot: Files, status: Status, request: Request)
    requires Snapshot(snapshot)
  {
    match request
    case Append(chunk) =>
      chunk.name.Allowed() && chunk.offset <= |snapshot[chunk.name]|
      && chunk == ChunkAt(snapshot, chunk.name, chunk.offset)
    case Finish(report) => report == ReportOf(snapshot, status)
    case Fail => true
  }

  predicate IsPrefix(files: Files, snapshot: Files) {
    forall name | name in files :: name in snapshot && files[name] <= snapshot[name]
  }

  ghost predicate Inv(snapshot: Files, status: Status, job: Job)
    requires Snapshot(snapshot)
  {
    && IsPrefix(job.files, snapshot)
    && (job.manifest.Some? && job.manifest.value.Reported? ==>
          job.manifest.value.report == ReportOf(snapshot, status) && job.files == snapshot)
  }

  /** What a chunk's text says at the other end. */
  lemma ChunkReads(snapshot: Files, name: LogName, offset: nat)
    requires Snapshot(snapshot) && name.Allowed() && offset <= |snapshot[name]|
    ensures Unhex(ChunkAt(snapshot, name, offset).text)
      == Some(snapshot[name][offset..NextOffset(snapshot[name], offset)])
  {
    UnhexOfHex(snapshot[name][offset..NextOffset(snapshot[name], offset)]);
  }

  /** The complaint that a resent chunk differs cannot arise, and a chunk that
      has already arrived is acknowledged again without writing. */
  lemma ResendingIsHarmless(snapshot: Files, files: Files, name: LogName, offset: nat, disk: Disk)
    requires Snapshot(snapshot) && IsPrefix(files, snapshot)
    requires name.Allowed() && offset <= |snapshot[name]|
    requires name in files && NextOffset(snapshot[name], offset) <= |files[name]| && !disk.Broken?
    ensures AfterAppend(files, ChunkAt(snapshot, name, offset), disk) == (files, Accepted)
  {
    ChunkReads(snapshot, name, offset);
    var next := NextOffset(snapshot[name], offset);
    assert files[name] == snapshot[name][..|files[name]|];
    assert files[name][offset..next] == snapshot[name][offset..next];
  }

  /** The chunk is accepted although not all of it reaches the file. */
  predicate LostIn(files: Files, chunk: Chunk, disk: Disk) {
    Continues(files, chunk) && disk.Lost? && disk.written < |Unhex(chunk.text).value|
  }

  /** How much of a chunk reaches the file. */
  function Reaching(disk: Disk, size: nat): (kept: nat)
    ensures kept <= size
  {
    if (disk.Short? || disk.Lost?) && disk.written < size then disk.written else size
  }

  lemma WhatIsWritten(files: Files, chunk: Chunk, disk: Disk)
    requires AfterAppend(files, chunk, disk).0 != files
    ensures Continues(files, chunk)
    ensures var data := Unhex(chunk.text).value;
      AfterAppend(files, chunk, disk).0
      == files[chunk.name := Stored(files, chunk.name) + data[..Reaching(disk, |data|)]]
  {
    var data := Unhex(chunk.text).value;
    assert data[..|data|] == data;
  }

  /** Whatever an honest chunk meets, the file stays a prefix of the snapshot. */
  lemma AppendKeepsPrefix(snapshot: Files, files: Files, name: LogName, offset: nat, disk: Disk)
    requires Snapshot(snapshot) && IsPrefix(files, snapshot)
    requires name.Allowed() && offset <= |snapshot[name]|
    ensures IsPrefix(AfterAppend(files, ChunkAt(snapshot, name, offset), disk).0, snapshot)
  {
    var whole, next, chunk := snapshot[name], NextOffset(snapshot[name], offset), ChunkAt(snapshot, name, offset);
    if AfterAppend(files, chunk, disk).0 != files {
      ChunkReads(snapshot, name, offset);
      WhatIsWritten(files, chunk, disk);
      var kept := Reaching(disk, next - offset);
      StoredIsFront(snapshot, files, name);
      PieceExtends(whole, offset, next, kept);
      OneMorePrefix(snapshot, files, name, offset + kept);
    }
  }

  lemma StoredIsFront(snapshot: Files, files: Files, name: LogName)
    requires IsPrefix(files, snapshot) && name in snapshot
    ensures |Stored(files, name)| <= |snapshot[name]|
    ensures Stored(files, name) == snapshot[name][..|Stored(files, name)|]
  {
  }

  lemma OneMorePrefix(snapshot: Files, files: Files, name: LogName, kept: nat)
    requires IsPrefix(files, snapshot) && name in snapshot && kept <= |snapshot[name]|
    ensures IsPrefix(files[name := snapshot[name][..kept]], snapshot)
  {
  }

  /** Once a chunk is accepted, everything up to its end is there if and only if
      the write was not lost when the stream was closed. */
  lemma AcceptedIsThere(snapshot: Files, files: Files, name: LogName, offset: nat, disk: Disk)
    requires Snapshot(snapshot) && IsPrefix(files, snapshot)
    requires name.Allowed() && offset <= |snapshot[name]|
    requires AfterAppend(files, ChunkAt(snapshot, name, offset), disk).1 == Accepted
    ensures var chunk := ChunkAt(snapshot, name, offset);
      var after := AfterAppend(files, chunk, disk).0;
      name in after && (NextOffset(snapshot[name], offset) <= |after[name]| <==> !LostIn(files, chunk, disk))
  {
    ChunkReads(snapshot, name, offset);
  }

  lemma PieceExtends(whole: seq<Byte>, from: nat, to: nat, kept: nat)
    requires from <= to <= |whole| && kept <= to - from
    ensures whole[..from] + whole[from..to][..kept] == whole[..from + kept]
    ensures kept == to - from ==> whole[from..to][..kept] == whole[from..to]
  {
  }

  lemma FullReportMeansEqual(snapshot: Files, status: Status, files: Files)
    requires Snapshot(snapshot) && IsPrefix(files, snapshot)
    requires ReportFits(files, ReportOf(snapshot, status))
    ensures files == snapshot
  {
    var report := ReportOf(snapshot, status);
    assert Listed(files, report.files[0]) && Listed(files, report.files[1]);
    assert snapshot.Keys == {RuntimeLog, VcuCan};
    forall name | name in snapshot ensures name in files && files[name] == snapshot[name] {
      assert name == report.files[0].name || name == report.files[1].name;
      assert files[name] == snapshot[name][..|files[name]|];
    }
  }

  lemma RequestKeepsInv(
    snapshot: Files, status: Status, job: Job, request: Request, idle: bool, expired: bool, disk: Disk)
    requires Snapshot(snapshot) && Inv(snapshot, status, job) && Honest(snapshot, status, request)
    ensures Inv(snapshot, status, AfterRequest(job, request, idle, expired, disk).0)
  {
    match request
    case Append(chunk) => AppendKeepsPrefix(snapshot, job.files, chunk.name, chunk.offset, disk);
    case Finish(report) =>
      if ReportFits(job.files, report) {
        FullReportMeansEqual(snapshot, status, job.files);
      }
    case Fail =>
  }

  // ---------------------------------------------------------------------
  // Every pattern of losses, retries and delays
  // ---------------------------------------------------------------------

  /** A request that reaches the server, however late, often or out of order. */
  datatype Arrival = Arrival(request: Request, idle: bool, expired: bool, disk: Disk)

  function Run(arrivals: seq<Arrival>): Job {
    if arrivals == [] then NEW_JOB
    else
      var a := arrivals[|arrivals| - 1];
      AfterRequest(Run(arrivals[..|arrivals| - 1]), a.request, a.idle, a.expired, a.disk).0
  }

  ghost predicate AllHonest(snapshot: Files, status: Status, arrivals: seq<Arrival>)
    requires Snapshot(snapshot)
  {
    forall i | 0 <= i < |arrivals| :: Honest(snapshot, status, arrivals[i].request)
  }

  lemma {:induction false} StoredIsPrefix(snapshot: Files, status: Status, arrivals: seq<Arrival>)
    requires Snapshot(snapshot) && AllHonest(snapshot, status, arrivals)
    ensures Inv(snapshot, status, Run(arrivals))
  {
    if arrivals != [] {
      var n := |arrivals| - 1;
      var a := arrivals[n];
      StoredIsPrefix(snapshot, status, arrivals[..n]);
      RequestKeepsInv(snapshot, status, Run(arrivals[..n]), a.request, a.idle, a.expired, a.disk);
    }
  }

  /** An accepted final report means that the server holds the snapshot, byte for
      byte, whatever was lost or repeated on the way. */
  lemma AcceptedFinishMeansEqual(snapshot: Files, status: Status, arrivals: seq<Arrival>, last: Arrival)
    requires Snapshot(snapshot) && AllHonest(snapshot, status, arrivals)
    requires Honest(snapshot, status, last.request) && last.request.Finish?
    requires AfterRequest(Run(arrivals), last.request, last.idle, last.expired, last.disk).1 == Accepted
    ensures Run(arrivals + [last]).files == snapshot
    ensures Run(arrivals + [last]).manifest == Some(Reported(ReportOf(snapshot, status)))
  {
    assert (arrivals + [last])[..|arrivals|] == arrivals;
    StoredIsPrefix(snapshot, status, arrivals + [last]);
  }

  // ---------------------------------------------------------------------
  // The progress counter
  // ---------------------------------------------------------------------

  function Sizes(files: Files): nat {
    |Stored(files, RuntimeLog)| + |Stored(files, VcuCan)|
  }

  /** A chunk that continues its file reaches it, in part or whole, and the sender
      gets an error. */
  predicate Uncounted(before: Job, a: Arrival) {
    && a.request.Append? && Expired(before, a.expired).manifest.None? && a.idle
    && a.request.chunk.name.Allowed() && Continues(before.files, a.request.chunk)
    && var size := |Unhex(a.request.chunk.text).value|;
       (a.disk.Short? && 0 < a.disk.written < size) || (a.disk.Unmeasured? && 0 < size)
  }

  /** Stored and counted bytes grow alike, unless a write ends in an error. */
  lemma OneRequestCounts(before: Job, a: Arrival)
    ensures var after := AfterRequest(before, a.request, a.idle, a.expired, a.disk).0;
      if Uncounted(before, a)
      then after.counted == before.counted && Sizes(after.files) > Sizes(before.files)
      else after.counted - before.counted == Sizes(after.files) - Sizes(before.files)
  {
    if a.request.Append? {
      AppendGrows(before.files, a.request.chunk, a.disk);
    }
  }

  predicate NeverUncounted(arrivals: seq<Arrival>) {
    arrivals == []
    || (NeverUncounted(arrivals[..|arrivals| - 1])
        && !Uncounted(Run(arrivals[..|arrivals| - 1]), arrivals[|arrivals| - 1]))
  }

  /** Bytes are counted only when a chunk is accepted, so the counter is right if
      and only if no chunk ever reached its file and ended in an error, and
      otherwise too low. */
  lemma {:induction false} CountedIsStored(arrivals: seq<Arrival>)
    ensures Run(arrivals).counted <= Sizes(Run(arrivals).files)
    ensures Run(arrivals).counted == Sizes(Run(arrivals).files) <==> NeverUncounted(arrivals)
  {
    if arrivals != [] {
      var front := arrivals[..|arrivals| - 1];
      CountedIsStored(front);
      OneRequestCounts(Run(front), arrivals[|arrivals| - 1]);
    }
  }

  /** Of two bytes the disk takes one and then reports an error. */
  function HalfWritten(): Arrival {
    Arrival(Append(Chunk(RuntimeLog, 0, Hex([1, 2]))), true, false, Short(1))
  }

  lemma CounterMayLag()
    ensures Run([HalfWritten()]).counted == 0 && Sizes(Run([HalfWritten()]).files) == 1
  {
    HalfAppended(Hex([1, 2]));
    assert [HalfWritten()][..0] == [];
  }

  lemma HalfAppended(text: string)
    requires text == Hex([1, 2])
    ensures AfterAppend(map[], Chunk(RuntimeLog, 0, text), Short(1)) == (map[RuntimeLog := [1]], Refused)
  {
    UnhexOfHex([1, 2]);
    assert [] + [1, 2][..1] == [1];
  }
}
