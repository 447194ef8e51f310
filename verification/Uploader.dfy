/** The local archive uploader: one recorded segment at a time, file step by file
    step, with a crash or an error possible between any two of them. */
module Uploader {
  import opened Bytes
  import opened ControlTypes

  datatype UploadState = Pending | Uploaded | OtherState

  /** A metadata file: unreadable, or a segment with its video and the rest. */
  datatype Doc = Corrupt | Segment(id: string, video: string, state: UploadState, details: seq<Byte>)
  {
    /** The scan stops at the first file of this kind. */
    predicate NeedsWork() {
      Corrupt? || state == Pending
    }
  }

  /** Recorded metadata, the archive, and what temporary files hold. */
  datatype Disk = Disk(
    source: map<string, Doc>,
    archivedVideos: map<string, seq<Byte>>, archivedDocs: map<string, Doc>,
    tempVideos: map<string, seq<Byte>>, tempDocs: map<string, Doc>, tempSources: map<string, Doc>)

  type Videos = map<string, seq<Byte>>

  // ---------------------------------------------------------------------
  // File steps
  // ---------------------------------------------------------------------

  datatype Step =
    | DropTemp(video: string)
    | Copy(video: string, bytes: seq<Byte>)
    | DropOld(video: string)
    | InstallVideo(video: string)
    | WriteDoc(name: string, doc: Doc)
    | InstallDoc(name: string)
    | WriteSource(name: string, doc: Doc)
    | InstallSource(name: string)

  function Apply(d: Disk, step: Step): Disk {
    match step
    case DropTemp(video) => d.(tempVideos := d.tempVideos - {video})
    case Copy(video, bytes) => d.(tempVideos := d.tempVideos[video := bytes])
    case DropOld(video) => d.(archivedVideos := d.archivedVideos - {video})
    case InstallVideo(video) =>
      if video !in d.tempVideos then d
      else d.(archivedVideos := d.archivedVideos[video := d.tempVideos[video]], tempVideos := d.tempVideos - {video})
    case WriteDoc(name, doc) => d.(tempDocs := d.tempDocs[name := doc])
    case InstallDoc(name) =>
      if name !in d.tempDocs then d
      else d.(archivedDocs := d.archivedDocs[name := d.tempDocs[name]], tempDocs := d.tempDocs - {name})
    case WriteSource(name, doc) => d.(tempSources := d.tempSources[name := doc])
    case InstallSource(name) =>
      if name !in d.tempSources then d
      else d.(source := d.source[name := d.tempSources[name]], tempSources := d.tempSources - {name})
  }

  function ApplyAll(d: Disk, steps: seq<Step>): Disk {
    if steps == [] then d else Apply(ApplyAll(d, steps[..|steps| - 1]), steps[|steps| - 1])
  }

  /** What a step leaves when it is cut short: a temporary file with anything in it. */
  datatype Torn = Whole | TornCopy(bytes: seq<Byte>) | TornWrite

  function ApplyTorn(d: Disk, step: Step, torn: Torn): Disk {
    match (step, torn)
    case (Copy(video, _), TornCopy(bytes)) => Apply(d, Copy(video, bytes))
    case (WriteDoc(name, _), TornWrite) => Apply(d, WriteDoc(name, Corrupt))
    case (WriteSource(name, _), TornWrite) => Apply(d, WriteSource(name, Corrupt))
    case _ => d
  }

  /** The steps of one upload: video first, then the archive's metadata, then the
      source's, each through a temporary file. */
  function Plan(videos: Videos, name: string, doc: Doc): seq<Step>
    requires doc.Segment? && doc.video in videos
  {
    var done := doc.(state := Uploaded);
    [DropTemp(doc.video), Copy(doc.video, videos[doc.video]), DropOld(doc.video), InstallVideo(doc.video),
     WriteDoc(name, done), InstallDoc(name), WriteSource(name, done), InstallSource(name)]
  }

  // ---------------------------------------------------------------------
  // What every crash leaves true
  // ---------------------------------------------------------------------

  /** A source marked as uploaded has an equal video and the same metadata in the
      archive. */
  ghost predicate Archived(videos: Videos, d: Disk, name: string)
    requires name in d.source
  {
    var doc := d.source[name];
    doc.Segment? && doc.state == Uploaded ==>
      && doc.video in videos && doc.video in d.archivedVideos && d.archivedVideos[doc.video] == videos[doc.video]
      && name in d.archivedDocs && d.archivedDocs[name] == doc
  }

  /** Every metadata file has a video of its own. */
  ghost predicate OwnVideos(d: Disk) {
    forall a, b | a in d.source && b in d.source && d.source[a].Segment? && d.source[b].Segment?
      && d.source[a].video == d.source[b].video :: a == b
  }

  ghost predicate Inv(videos: Videos, d: Disk) {
    OwnVideos(d) && forall name | name in d.source :: Archived(videos, d, name)
  }

  /** How far an upload has come after `n` of its steps. */
  ghost predicate Progress(videos: Videos, before: Disk, d: Disk, name: string, doc: Doc, n: nat)
    requires doc.Segment? && doc.video in videos
  {
    var done := doc.(state := Uploaded);
    && (n < 8 ==> d.source == before.source)
    && (n == 8 ==> d.source == before.source[name := done])
    && (2 <= n < 4 ==> doc.video in d.tempVideos && d.tempVideos[doc.video] == videos[doc.video])
    && (4 <= n ==> doc.video in d.archivedVideos && d.archivedVideos[doc.video] == videos[doc.video])
    && (n == 5 ==> name in d.tempDocs && d.tempDocs[name] == done)
    && (6 <= n ==> name in d.archivedDocs && d.archivedDocs[name] == done)
    && (n == 7 ==> name in d.tempSources && d.tempSources[name] == done)
  }

  lemma {:induction false} PrefixKeepsInv(videos: Videos, d: Disk, name: string, n: nat)
    requires Inv(videos, d) && name in d.source && d.source[name].Segment? && d.source[name].state == Pending
    requires d.source[name].video in videos && n <= 8
    ensures var doc := d.source[name];
      var after := ApplyAll(d, Plan(videos, name, doc)[..n]);
      Inv(videos, after) && Progress(videos, d, after, name, doc, n)
  {
    var doc := d.source[name];
    var plan := Plan(videos, name, doc);
    if n == 0 {
      assert plan[..0] == [];
    } else {
      PrefixKeepsInv(videos, d, name, n - 1);
      assert plan[..n][..n - 1] == plan[..n - 1];
      var before := ApplyAll(d, plan[..n - 1]);
      StepKeepsInv(videos, d, before, name, n - 1);
    }
  }

  /** What step number `n` of an upload of `name` may change. */
  lemma StepEffect(videos: Videos, d: Disk, name: string, doc: Doc, n: nat)
    requires doc.Segment? && doc.video in videos && n < 8
    ensures var after := Apply(d, Plan(videos, name, doc)[n]);
      && (n != 7 ==> after.source == d.source)
      && (n != 2 && n != 3 ==> after.archivedVideos == d.archivedVideos)
      && (n == 2 ==> after.archivedVideos == d.archivedVideos - {doc.video})
      && (n == 3 && doc.video in d.tempVideos ==>
            after.archivedVideos == d.archivedVideos[doc.video := d.tempVideos[doc.video]])
      && (n == 1 ==> after.tempVideos == d.tempVideos[doc.video := videos[doc.video]])
      && (n == 2 ==> after.tempVideos == d.tempVideos)
      && (n != 5 ==> after.archivedDocs == d.archivedDocs)
  {
    var plan := Plan(videos, name, doc);
    assert plan[1] == Copy(doc.video, videos[doc.video]) && plan[2] == DropOld(doc.video);
  }

  lemma StepEffectOnDocs(videos: Videos, d: Disk, name: string, doc: Doc, n: nat)
    requires doc.Segment? && doc.video in videos && n < 8
    ensures var after := Apply(d, Plan(videos, name, doc)[n]);
      var done := doc.(state := Uploaded);
      && (n == 4 ==> after.tempDocs == d.tempDocs[name := done])
      && (n == 5 && name in d.tempDocs ==> after.archivedDocs == d.archivedDocs[name := d.tempDocs[name]])
      && (n == 6 ==> after.tempSources == d.tempSources[name := done])
      && (n == 7 && name in d.tempSources ==> after.source == d.source[name := d.tempSources[name]])
  {
    var plan := Plan(videos, name, doc);
    var done := doc.(state := Uploaded);
    assert plan[4] == WriteDoc(name, done) && plan[5] == InstallDoc(name);
    assert plan[6] == WriteSource(name, done) && plan[7] == InstallSource(name);
  }

  lemma StepKeepsProgress(videos: Videos, start: Disk, d: Disk, name: string, doc: Doc, n: nat)
    requires doc.Segment? && doc.video in videos && n < 8
    requires Progress(videos, start, d, name, doc, n)
    ensures Progress(videos, start, Apply(d, Plan(videos, name, doc)[n]), name, doc, n + 1)
  {
    StepEffect(videos, d, name, doc, n);
    StepEffectOnDocs(videos, d, name, doc, n);
  }

  lemma OthersKeepArchive(videos: Videos, start: Disk, d: Disk, after: Disk, name: string, n: nat)
    requires name in start.source && start.source[name].Segment? && start.source[name].state == Pending
    requires start.source[name].video in videos && n < 8
    requires Inv(videos, d) && Progress(videos, start, d, name, start.source[name], n)
    requires after == Apply(d, Plan(videos, name, start.source[name])[n])
    ensures forall other | other in after.source && other != name :: Archived(videos, after, other)
    ensures OwnVideos(after)
  {
    var doc := start.source[name];
    StepEffect(videos, d, name, doc, n);
    StepEffectOnDocs(videos, d, name, doc, n);
    forall other | other in after.source && other != name ensures Archived(videos, after, other) {
      assert other in d.source && after.source[other] == d.source[other] && Archived(videos, d, other);
    }
  }

  lemma StepKeepsInv(videos: Videos, start: Disk, d: Disk, name: string, n: nat)
    requires name in start.source && start.source[name].Segment? && start.source[name].state == Pending
    requires start.source[name].video in videos && n < 8
    requires Inv(videos, d) && Progress(videos, start, d, name, start.source[name], n)
    ensures var doc := start.source[name];
      var after := Apply(d, Plan(videos, name, doc)[n]);
      Inv(videos, after) && Progress(videos, start, after, name, doc, n + 1)
  {
    var doc := start.source[name];
    var after := Apply(d, Plan(videos, name, doc)[n]);
    StepKeepsProgress(videos, start, d, name, doc, n);
    OthersKeepArchive(videos, start, d, after, name, n);
    assert Archived(videos, after, name);
  }

  /** An upload that stops after any number of steps, in the middle of one or not,
      leaves the promise intact; its source is either untouched or marked. */
  lemma CrashKeepsInv(videos: Videos, d: Disk, name: string, n: nat, torn: Torn)
    requires Inv(videos, d) && name in d.source && d.source[name].Segment? && d.source[name].state == Pending
    requires d.source[name].video in videos && n <= 8
    ensures var doc := d.source[name];
      var plan := Plan(videos, name, doc);
      var reached := ApplyAll(d, plan[..n]);
      var after := if n < 8 then ApplyTorn(reached, plan[n], torn) else reached;
      && Inv(videos, after)
      && after.source == if n < 8 then d.source else d.source[name := doc.(state := Uploaded)]
  {
    PrefixKeepsInv(videos, d, name, n);
    if n < 8 {
      var doc := d.source[name];
      var reached := ApplyAll(d, Plan(videos, name, doc)[..n]);
      var after := ApplyTorn(reached, Plan(videos, name, doc)[n], torn);
      forall other | other in after.source ensures Archived(videos, after, other) {
        assert Archived(videos, reached, other);
      }
    }
  }

  // ---------------------------------------------------------------------
  // Which segment comes next, over every run
  // ---------------------------------------------------------------------

  /** The first metadata file, in the order of the paths, that is not done. */
  function First(names: seq<string>, source: map<string, Doc>): Option<string>
    requires forall name | name in names :: name in source
  {
    if names == [] then None
    else if source[names[0]].NeedsWork() then Some(names[0])
    else First(names[1..], source)
  }

  function PendingSegments(source: map<string, Doc>): set<string> {
    set name | name in source && source[name].Segment? && source[name].state == Pending
  }

  predicate Uploadable(videos: Videos, outside: set<string>, doc: Doc) {
    doc.Segment? && doc.state == Pending && doc.id != [] && doc.video in videos && doc.video !in outside
  }

  /** An upload that stops after `n` of its steps. */
  function AfterUpload(videos: Videos, d: Disk, name: string, doc: Doc, n: nat, torn: Torn): Disk
    requires doc.Segment? && doc.video in videos
  {
    var plan := Plan(videos, name, doc);
    if n < 8 then ApplyTorn(ApplyAll(d, plan[..n]), plan[n], torn) else ApplyAll(d, plan)
  }

  /** One run of the uploader that stops after `n` steps of its upload. */
  datatype Attempt = Attempt(names: seq<string>, n: nat, torn: Torn)

  function AfterAttempt(videos: Videos, outside: set<string>, d: Disk, a: Attempt): Disk
    requires forall name | name in a.names :: name in d.source
  {
    var first := First(a.names, d.source);
    if first.None? then d
    else
      FirstIsListed(a.names, d.source);
      var doc := d.source[first.value];
      if Uploadable(videos, outside, doc) then AfterUpload(videos, d, first.value, doc, a.n, a.torn) else d
  }

  lemma {:induction false} FirstIsListed(names: seq<string>, source: map<string, Doc>)
    requires forall name | name in names :: name in source
    ensures First(names, source).Some? ==>
      First(names, source).value in names && source[First(names, source).value].NeedsWork()
  {
    if names != [] && !source[names[0]].NeedsWork() {
      FirstIsListed(names[1..], source);
    }
  }

  lemma AttemptKeepsInv(videos: Videos, outside: set<string>, d: Disk, a: Attempt)
    requires Inv(videos, d) && forall name | name in a.names :: name in d.source
    ensures Inv(videos, AfterAttempt(videos, outside, d, a))
    ensures AfterAttempt(videos, outside, d, a).source.Keys == d.source.Keys
  {
    FirstIsListed(a.names, d.source);
    var first := First(a.names, d.source);
    if first.Some? && Uploadable(videos, outside, d.source[first.value]) {
      var plan := Plan(videos, first.value, d.source[first.value]);
      assert plan[..8] == plan;
      CrashKeepsInv(videos, d, first.value, if a.n < 8 then a.n else 8, a.torn);
    }
  }

  function AfterAll(videos: Videos, outside: set<string>, d: Disk, names: seq<string>, cuts: seq<(nat, Torn)>)
    : (after: Disk)
    requires forall name | name in names :: name in d.source
    requires Inv(videos, d)
    ensures after.source.Keys == d.source.Keys
    decreases |cuts|
  {
    if cuts == [] then d
    else
      var a := Attempt(names, cuts[0].0, cuts[0].1);
      AttemptKeepsInv(videos, outside, d, a);
      AfterAll(videos, outside, AfterAttempt(videos, outside, d, a), names, cuts[1..])
  }

  /** Any number of crashes and restarts. */
  lemma {:induction false} EveryRunKeepsInv(
    videos: Videos, outside: set<string>, d: Disk, names: seq<string>, cuts: seq<(nat, Torn)>)
    requires Inv(videos, d) && forall name | name in names :: name in d.source
    ensures Inv(videos, AfterAll(videos, outside, d, names, cuts))
    decreases |cuts|
  {
    if cuts != [] {
      var a := Attempt(names, cuts[0].0, cuts[0].1);
      AttemptKeepsInv(videos, outside, d, a);
      EveryRunKeepsInv(videos, outside, AfterAttempt(videos, outside, d, a), names, cuts[1..]);
    }
  }

  /** An upload that is not cut short takes exactly its segment off the backlog. */
  lemma FullUploadShrinksBacklog(videos: Videos, outside: set<string>, d: Disk, a: Attempt)
    requires Inv(videos, d) && forall name | name in a.names :: name in d.source
    requires First(a.names, d.source).Some? && a.n >= 8
    requires First(a.names, d.source).value in d.source
    requires Uploadable(videos, outside, d.source[First(a.names, d.source).value])
    ensures var name := First(a.names, d.source).value;
      var after := AfterAttempt(videos, outside, d, a);
      && PendingSegments(after.source) == PendingSegments(d.source) - {name}
      && |PendingSegments(after.source)| == |PendingSegments(d.source)| - 1
  {
    var name := First(a.names, d.source).value;
    var plan := Plan(videos, name, d.source[name]);
    assert plan[..8] == plan;
    CrashKeepsInv(videos, d, name, 8, Whole);
    assert name in PendingSegments(d.source);
    assert PendingSegments(AfterAttempt(videos, outside, d, a).source) == PendingSegments(d.source) - {name};
  }

  /** A segment that cannot be uploaded holds up everything behind it, for ever. */
  lemma {:induction false} FirstBlocksTheRest(
    videos: Videos, outside: set<string>, d: Disk, names: seq<string>, cuts: seq<(nat, Torn)>)
    requires Inv(videos, d) && forall name | name in names :: name in d.source
    requires First(names, d.source).Some? && First(names, d.source).value in d.source
    requires !Uploadable(videos, outside, d.source[First(names, d.source).value])
    ensures AfterAll(videos, outside, d, names, cuts) == d
    decreases |cuts|
  {
    if cuts != [] {
      FirstBlocksTheRest(videos, outside, d, names, cuts[1..]);
    }
  }

  /** Attempts that nothing cuts short. */
  function Uncut(count: nat): seq<(nat, Torn)> {
    if count == 0 then [] else [(8, Whole)] + Uncut(count - 1)
  }

  /** The listed files that are not done. */
  function Waiting(names: seq<string>, source: map<string, Doc>): set<string>
    requires forall name | name in names :: name in source
  {
    set name | name in names && source[name].NeedsWork()
  }

  lemma {:induction false} FirstIsNone(names: seq<string>, source: map<string, Doc>)
    requires forall name | name in names :: name in source
    ensures First(names, source).None? <==> Waiting(names, source) == {}
  {
    FirstIsListed(names, source);
    if First(names, source).Some? {
      assert First(names, source).value in Waiting(names, source);
    } else if names != [] {
      FirstIsNone(names[1..], source);
      forall name | name in names ensures !source[name].NeedsWork() {
        if name in names[1..] {
          assert name !in Waiting(names[1..], source);
        }
      }
    }
  }

  lemma {:induction false} FewWaiting(names: seq<string>, source: map<string, Doc>)
    requires forall name | name in names :: name in source
    ensures |Waiting(names, source)| <= |names|
  {
    if names != [] {
      FewWaiting(names[1..], source);
      var one := {names[0]};
      assert Waiting(names, source) <= Waiting(names[1..], source) + one;
      SubsetIsSmaller(Waiting(names, source), Waiting(names[1..], source) + one);
    }
  }

  lemma {:induction false} SubsetIsSmaller(a: set<string>, b: set<string>)
    requires a <= b
    ensures |a| <= |b|
    decreases a
  {
    if a != {} {
      var x :| x in a;
      SubsetIsSmaller(a - {x}, b - {x});
    }
  }

  /** While every waiting file can be uploaded, enough attempts finish them all. */
  lemma {:induction false} UploadableDrains(
    videos: Videos, outside: set<string>, d: Disk, names: seq<string>, count: nat)
    requires Inv(videos, d) && forall name | name in names :: name in d.source
    requires forall name | name in Waiting(names, d.source) :: Uploadable(videos, outside, d.source[name])
    requires |Waiting(names, d.source)| <= count
    ensures Waiting(names, AfterAll(videos, outside, d, names, Uncut(count)).source) == {}
    decreases count
  {
    FirstIsNone(names, d.source);
    if count > 0 {
      var a := Attempt(names, 8, Whole);
      var after := AfterAttempt(videos, outside, d, a);
      AttemptKeepsInv(videos, outside, d, a);
      if First(names, d.source).Some? {
        FirstIsListed(names, d.source);
        var name := First(names, d.source).value;
        assert name in Waiting(names, d.source);
        UncutUploadMarks(videos, d, name);
        assert Waiting(names, after.source) == Waiting(names, d.source) - {name};
      }
      UploadableDrains(videos, outside, after, names, count - 1);
    }
  }

  lemma UncutUploadMarks(videos: Videos, d: Disk, name: string)
    requires Inv(videos, d) && name in d.source && d.source[name].Segment? && d.source[name].state == Pending
    requires d.source[name].video in videos
    ensures AfterUpload(videos, d, name, d.source[name], 8, Whole).source
      == d.source[name := d.source[name].(state := Uploaded)]
  {
    var plan := Plan(videos, name, d.source[name]);
    assert plan[..8] == plan;
    CrashKeepsInv(videos, d, name, 8, Whole);
  }

  /** A file that cannot be uploaded stays as it is, whatever happens around it. */
  lemma {:induction false} OthersStay(
    videos: Videos, outside: set<string>, d: Disk, names: seq<string>, cuts: seq<(nat, Torn)>, name: string)
    requires Inv(videos, d) && forall other | other in names :: other in d.source
    requires name in d.source && !Uploadable(videos, outside, d.source[name])
    ensures AfterAll(videos, outside, d, names, cuts).source[name] == d.source[name]
    decreases |cuts|
  {
    if cuts != [] {
      var a := Attempt(names, cuts[0].0, cuts[0].1);
      AttemptKeepsInv(videos, outside, d, a);
      FirstIsListed(names, d.source);
      var first := First(names, d.source);
      if first.Some? && Uploadable(videos, outside, d.source[first.value]) {
        var plan := Plan(videos, first.value, d.source[first.value]);
        assert plan[..8] == plan;
        CrashKeepsInv(videos, d, first.value, if a.n < 8 then a.n else 8, a.torn);
      }
      OthersStay(videos, outside, AfterAttempt(videos, outside, d, a), names, cuts[1..], name);
    }
  }

  /** Main result: as many undisturbed attempts as there are files finish all of
      them if and only if every one that is not done can be uploaded. */
  lemma DrainsExactly(videos: Videos, outside: set<string>, d: Disk, names: seq<string>)
    requires Inv(videos, d) && forall name | name in names :: name in d.source
    ensures First(names, AfterAll(videos, outside, d, names, Uncut(|names|)).source).None? <==>
      forall name | name in names && d.source[name].NeedsWork() :: Uploadable(videos, outside, d.source[name])
  {
    var after := AfterAll(videos, outside, d, names, Uncut(|names|));
    FirstIsNone(names, after.source);
    if forall name | name in names && d.source[name].NeedsWork() :: Uploadable(videos, outside, d.source[name]) {
      FewWaiting(names, d.source);
      UploadableDrains(videos, outside, d, names, |names|);
    } else {
      var name :| name in names && d.source[name].NeedsWork() && !Uploadable(videos, outside, d.source[name]);
      OthersStay(videos, outside, d, names, Uncut(|names|), name);
      assert name in Waiting(names, after.source);
    }
  }

  /** An unreadable file in front of a segment that could be uploaded. */
  function CorruptFirst(a: string, b: string): Disk
    requires a != b
  {
    Disk(map[a := Corrupt, b := Segment(b, b, Pending, [])], map[], map[], map[], map[], map[])
  }

  lemma CorruptFileBlocks(a: string, b: string, cuts: seq<(nat, Torn)>)
    requires a != b && b != ""
    ensures Uploadable(map[b := []], {}, CorruptFirst(a, b).source[b])
    ensures Inv(map[b := []], CorruptFirst(a, b))
    ensures AfterAll(map[b := []], {}, CorruptFirst(a, b), [a, b], cuts) == CorruptFirst(a, b)
  {
    var d := CorruptFirst(a, b);
    assert First([a, b], d.source) == Some(a);
    FirstBlocksTheRest(map[b := []], {}, d, [a, b], cuts);
  }

  // ---------------------------------------------------------------------
  // How an upload ends
  // ---------------------------------------------------------------------

  /** Which step, counted over the uploader's whole life, stops the run, and what
      it leaves behind. */
  type Stops = nat -> Option<Torn>

  /** What an unfaithful copy holds. */
  type Miscopies = nat -> Option<seq<Byte>>

  predicate CopyDiffers(miscopies: Miscopies, video: seq<Byte>, step: nat) {
    miscopies(step).Some? && miscopies(step).value != video
  }

  /** How an upload of `video` that starts with step number `from` ends, once `k`
      of its steps are done: at the first step that stops, at a copy that differs
      and is removed again, or not at all. */
  function Ending(stops: Stops, miscopies: Miscopies, video: seq<Byte>, from: nat, k: nat): (nat, Torn)
    requires k <= 8
    decreases 8 - k
  {
    if k == 8 then (8, Whole)
    else if stops(from + k).Some? then (k, stops(from + k).value)
    else if k == 1 && CopyDiffers(miscopies, video, from + 1) then
      (1, if stops(from + 2).None? then Whole else TornCopy(miscopies(from + 1).value))
    else Ending(stops, miscopies, video, from, k + 1)
  }

  /** An upload is completed if and only if no step stops and the copy is faithful. */
  lemma {:induction false} CompletesExactly(
    stops: Stops, miscopies: Miscopies, video: seq<Byte>, from: nat, k: nat)
    requires k <= 8
    ensures Ending(stops, miscopies, video, from, k).0 == 8 <==>
      && (forall step | from + k <= step < from + 8 :: stops(step).None?)
      && (k <= 1 ==> !CopyDiffers(miscopies, video, from + 1))
    decreases 8 - k
  {
    if k < 8 {
      CompletesExactly(stops, miscopies, video, from, k + 1);
    }
  }

  lemma PlanNext(videos: Videos, d: Disk, name: string, doc: Doc, n: nat)
    requires doc.Segment? && doc.video in videos && n < 8
    ensures var plan := Plan(videos, name, doc);
      ApplyAll(d, plan[..n + 1]) == Apply(ApplyAll(d, plan[..n]), plan[n])
  {
    var plan := Plan(videos, name, doc);
    assert plan[..n + 1][..n] == plan[..n];
  }

  /** A copy that differs and is removed again leaves what was there before it;
      one that cannot be removed stays as a temporary file. */
  lemma RemovedCopy(videos: Videos, d: Disk, name: string, doc: Doc, bytes: seq<Byte>)
    requires doc.Segment? && doc.video in videos
    ensures var copied := Apply(ApplyAll(d, Plan(videos, name, doc)[..1]), Copy(doc.video, bytes));
      && Apply(copied, DropTemp(doc.video)) == AfterUpload(videos, d, name, doc, 1, Whole)
      && copied == AfterUpload(videos, d, name, doc, 1, TornCopy(bytes))
      && doc.video in copied.tempVideos && copied.tempVideos[doc.video] == bytes
  {
    PlanNext(videos, d, name, doc, 0);
    assert Plan(videos, name, doc)[..0] == [];
    var rest := d.tempVideos - {doc.video};
    assert rest[doc.video := bytes] - {doc.video} == rest;
  }

  // ---------------------------------------------------------------------
  // The object
  // ---------------------------------------------------------------------

  datatype Outcome = Idle | Done(name: string) | Failed(name: string)

  class LocalArchiveUploader {
    const videos: Videos
    const outside: set<string>
    const stops: Stops
    const miscopies: Miscopies
    var steps: nat
    var source: map<string, Doc>
    var archivedVideos: map<string, seq<Byte>>
    var archivedDocs: map<string, Doc>
    var tempVideos: map<string, seq<Byte>>
    var tempDocs: map<string, Doc>
    var tempSources: map<string, Doc>

    ghost function View(): Disk
      reads this
    {
      Disk(source, archivedVideos, archivedDocs, tempVideos, tempDocs, tempSources)
    }

    constructor (videos: Videos, outside: set<string>, source: map<string, Doc>, stops: Stops, miscopies: Miscopies)
      ensures View() == Disk(source, map[], map[], map[], map[], map[])
      ensures this.videos == videos && this.outside == outside
    {
      this.videos, this.outside, this.source := videos, outside, source;
      this.stops, this.miscopies := stops, miscopies;
      archivedVideos, archivedDocs, tempVideos, tempDocs, tempSources := map[], map[], map[], map[], map[];
      steps := 0;
    }

    /** One file step, unless the run stops here. */
    method Perform(step: Step) returns (ok: bool)
      modifies this
      ensures steps == old(steps) + 1 && ok == stops(old(steps)).None?
      ensures View() ==
        if ok then Apply(old(View()), step) else ApplyTorn(old(View()), step, stops(old(steps)).value)
    {
      var stop := stops(steps);
      steps := steps + 1;
      ok := stop.None?;
      var torn := if ok then Whole else stop.value;
      match step {
        case DropTemp(video) =>
          if ok {
            tempVideos := tempVideos - {video};
          }
        case Copy(video, bytes) =>
          if ok {
            tempVideos := tempVideos[video := bytes];
          } else if torn.TornCopy? {
            tempVideos := tempVideos[video := torn.bytes];
          }
        case DropOld(video) =>
          if ok {
            archivedVideos := archivedVideos - {video};
          }
        case InstallVideo(video) =>
          if ok && video in tempVideos {
            archivedVideos := archivedVideos[video := tempVideos[video]];
            tempVideos := tempVideos - {video};
          }
        case WriteDoc(name, doc) =>
          if ok {
            tempDocs := tempDocs[name := doc];
          } else if torn.TornWrite? {
            tempDocs := tempDocs[name := Corrupt];
          }
        case InstallDoc(name) =>
          if ok && name in tempDocs {
            archivedDocs := archivedDocs[name := tempDocs[name]];
            tempDocs := tempDocs - {name};
          }
        case WriteSource(name, doc) =>
          if ok {
            tempSources := tempSources[name := doc];
          } else if torn.TornWrite? {
            tempSources := tempSources[name := Corrupt];
          }
        case InstallSource(name) =>
          if ok && name in tempSources {
            source := source[name := tempSources[name]];
            tempSources := tempSources - {name};
          }
      }
    }

    /** How the upload of `doc` that starts now will end. */
    ghost function EndingOf(doc: Doc, from: nat, k: nat): (nat, Torn)
      requires doc.Segment? && doc.video in videos && k <= 8
    {
      Ending(stops, miscopies, videos[doc.video], from, k)
    }

    /** The state after `k` steps of an upload that has not ended by then. */
    ghost predicate Underway(start: Disk, name: string, doc: Doc, from: nat, k: nat)
      requires doc.Segment? && doc.video in videos && k <= 8
      reads this
    {
      && View() == ApplyAll(start, Plan(videos, name, doc)[..k]) && steps == from + k
      && EndingOf(doc, from, 0) == EndingOf(doc, from, k)
    }

    /** The state after an upload that ended early. */
    ghost predicate Ended(start: Disk, name: string, doc: Doc, from: nat)
      requires doc.Segment? && doc.video in videos
      reads this
    {
      var cut := EndingOf(doc, from, 0);
      cut.0 < 8 && View() == AfterUpload(videos, start, name, doc, cut.0, cut.1)
    }

    /** The next step of an upload: it is done, or the upload ends with it. */
    method Proceed(step: Step, ghost start: Disk, ghost name: string, ghost doc: Doc, ghost from: nat, ghost k: nat)
      returns (ok: bool)
      requires doc.Segment? && doc.video in videos && k < 8 && k != 1
      requires step == Plan(videos, name, doc)[k] && Underway(start, name, doc, from, k)
      modifies this
      ensures if ok then Underway(start, name, doc, from, k + 1) else Ended(start, name, doc, from)
    {
      PlanNext(videos, start, name, doc, k);
      ok := Perform(step);
    }

    /** The copy is compared with the original before it replaces anything; a
        copy that differs is removed again. */
    method CopyVerified(video: string, ghost start: Disk, ghost name: string, ghost doc: Doc, ghost from: nat)
      returns (ok: bool)
      requires doc.Segment? && doc.video == video && video in videos && Underway(start, name, doc, from, 0)
      modifies this
      ensures if ok then Underway(start, name, doc, from, 4) else Ended(start, name, doc, from)
    {
      ok := Proceed(DropTemp(video), start, name, doc, from, 0);
      if ok {
        ok := PrepareCopy(video, start, name, doc, from);
      }
      if ok {
        ok := Proceed(DropOld(video), start, name, doc, from, 2);
      }
      if ok {
        ok := Proceed(InstallVideo(video), start, name, doc, from, 3);
      }
    }

    method PrepareCopy(video: string, ghost start: Disk, ghost name: string, ghost doc: Doc, ghost from: nat)
      returns (ok: bool)
      requires doc.Segment? && doc.video == video && video in videos && Underway(start, name, doc, from, 1)
      modifies this
      ensures if ok then Underway(start, name, doc, from, 2) else Ended(start, name, doc, from)
    {
      PlanNext(videos, start, name, doc, 1);
      var copy := miscopies(steps);
      var bytes := if copy.Some? then copy.value else videos[video];
      RemovedCopy(videos, start, name, doc, bytes);
      ok := Perform(Copy(video, bytes));
      if ok && tempVideos[video] != videos[video] {
        var removed := Perform(DropTemp(video));
        ok := false;
      }
    }

    method UploadMetadata(name: string) returns (ok: bool)
      requires name in source && source[name].NeedsWork()
      modifies this
      ensures var doc := old(source)[name];
        if Uploadable(videos, outside, doc) then
          var cut := EndingOf(doc, old(steps), 0);
          ok == (cut.0 == 8) && View() == AfterUpload(videos, old(View()), name, doc, cut.0, cut.1)
        else !ok && View() == old(View()) && steps == old(steps)
    {
      var doc := source[name];
      if doc.Corrupt? || doc.id == [] || doc.video !in videos || doc.video in outside {
        return false;
      }
      ghost var start, plan, from := View(), Plan(videos, name, doc), steps;
      assert plan[..0] == [] && plan[..8] == plan;
      ok := CopyVerified(doc.video, start, name, doc, from);
      if !ok {
        return;
      }
      var done := doc.(state := Uploaded);
      var rest := [WriteDoc(name, done), InstallDoc(name), WriteSource(name, done), InstallSource(name)];
      for i := 0 to 4
        invariant Underway(start, name, doc, from, 4 + i)
      {
        assert rest[i] == plan[4 + i];
        ok := Proceed(rest[i], start, name, doc, from, 4 + i);
        if !ok {
          return;
        }
      }
      return true;
    }

    /** The attempt that starts now, and how it will end. */
    ghost function AttemptAt(names: seq<string>, source: map<string, Doc>, from: nat): Attempt
      requires forall name | name in names :: name in source
    {
      var first := First(names, source);
      if first.None? then Attempt(names, 0, Whole)
      else
        FirstIsListed(names, source);
        var doc := source[first.value];
        if !Uploadable(videos, outside, doc) then Attempt(names, 0, Whole)
        else
          var cut := EndingOf(doc, from, 0);
          Attempt(names, cut.0, cut.1)
    }

    /** Looks at the metadata files in order and works on the first that is not
        done, whatever comes of it. */
    method ProcessOnce(names: seq<string>) returns (outcome: Outcome)
      requires forall name | name in names :: name in source
      modifies this
      ensures View() == AfterAttempt(videos, outside, old(View()), AttemptAt(names, old(source), old(steps)))
      ensures var first := First(names, old(source));
        outcome ==
          if first.None? then Idle
          else if AttemptAt(names, old(source), old(steps)).n == 8 then Done(first.value)
          else Failed(first.value)
      ensures Inv(videos, old(View())) ==> Inv(videos, View())
      ensures Inv(videos, old(View())) && outcome.Done? ==>
        |PendingSegments(source)| == |PendingSegments(old(source))| - 1
    {
      ghost var before := View();
      for i := 0 to |names|
        invariant View() == before && steps == old(steps) && First(names[i..], source) == First(names, source)
      {
        assert names[i..][0] == names[i] && names[i..][1..] == names[i + 1..];
        var name := names[i];
        assert name in names;
        if source[name].NeedsWork() {
          ghost var a := AttemptAt(names, source, steps);
          var ok := UploadMetadata(name);
          assert View() == AfterAttempt(videos, outside, before, a);
          if Inv(videos, before) {
            AttemptKeepsInv(videos, outside, before, a);
            if ok {
              FullUploadShrinksBacklog(videos, outside, before, a);
            }
          }
          return if ok then Done(name) else Failed(name);
        }
      }
      return Idle;
    }
  }
}
