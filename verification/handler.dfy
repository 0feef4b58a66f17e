/**
 * The object-created handler: it decodes the object key, derives the
 * extension, base name, output folder and download path from it, rejects
 * keys whose extension is not a supported video format, and otherwise runs
 * the conversion steps in order — make the working directory, download,
 * probe and select the ladder, transcode, write the master playlist,
 * upload, remove the working directory — where the first step that throws
 * ends the run in the catch block.
 *
 * Every step's outcome comes from a `World` value; the handler's observable
 * behaviour is the list of effects it starts, in order, and how it ends.
 */
module Handler {
  import opened Wrappers
  import opened Text
  import opened Paths
  import opened Service

  // ---------------------------------------------------------------------
  // The format gate
  // ---------------------------------------------------------------------

  /** The supported formats; the table lists "mov" twice, which the set holds once. */
  const AllowList: set<string> := {"mp4", "mov", "avi", "wmv", "mpg", "mpeg", "flv", "webm", "mkv"}

  /** The property names every plain object inherits from Object.prototype; each one looks up to a truthy value. */
  const PrototypeKeys: set<string> := {
    "constructor", "toString", "toLocaleString", "valueOf", "hasOwnProperty", "isPrototypeOf",
    "propertyIsEnumerable", "__proto__", "__defineGetter__", "__defineSetter__",
    "__lookupGetter__", "__lookupSetter__"
  }

  /** The gate as written: a property lookup on the format table, which also finds inherited names. */
  predicate GateAsWritten(ext: string) {
    ext in AllowList || ext in PrototypeKeys
  }

  /** The gate as intended: the extension is one of the table's own entries. */
  predicate Supported(ext: string) {
    ext in AllowList
  }

  // ---------------------------------------------------------------------
  // Key derivation
  // ---------------------------------------------------------------------

  /** Every '+' of the raw event key becomes a space (form encoding of spaces); nothing else changes. */
  function ReplacePlus(raw: string): (s: string)
    ensures |s| == |raw|
    ensures '+' !in s
    ensures forall i :: 0 <= i < |raw| && raw[i] != '+' ==> s[i] == raw[i]
    ensures forall i :: 0 <= i < |raw| && raw[i] == '+' ==> s[i] == ' '
  {
    seq(|raw|, i requires 0 <= i < |raw| => if raw[i] == '+' then ' ' else raw[i])
  }

  const TmpDir := "/tmp"

  /** What the handler derives from the decoded key before the gate. */
  datatype Context = Context(key: string, ext: string, fileName: string, folderName: string, downloadPath: string, outputDir: string)

  /** `path.extname(key).slice(1)`: the extension without its dot. */
  function ExtOf(key: string): (ext: string)
    ensures '.' !in ext && '/' !in ext
    ensures Extname(key) == [] ==> ext == []
    ensures Extname(key) != [] ==> Extname(key) == "." + ext
  {
    var e := Extname(key);
    if e == [] then []
    else
      DotSplit(e, Basename(key));
      e[1..]
  }

  /** An extension of a '/'-free base name is a dot followed by a name with neither '.' nor '/'. */
  lemma DotSplit(e: string, base: string)
    requires e != [] && e[0] == '.' && '.' !in e[1..]
    requires EndsWith(base, e) && '/' !in base
    ensures e == "." + e[1..]
    ensures '.' !in e[1..] && '/' !in e[1..]
  {
    NotInSuffix(base, e, '/');
    assert e == [e[0]] + e[1..];
    assert forall i :: 0 <= i < |e[1..]| ==> e[1..][i] == e[i + 1];
  }

  /**
   * The extension, the base name (`path.parse(key).name`), the output folder
   * `<name>_<now>`, the download path `/tmp/<name>.<ext>` and the output
   * directory `/tmp/<folder>`.
   */
  function Derive(key: string, now: nat): Context {
    var ext := ExtOf(key);
    var fileName := Stem(key);
    var folderName := fileName + "_" + NatToString(now);
    Context(key, ext, fileName, folderName, JoinUnder(TmpDir, fileName + "." + ext), JoinUnder(TmpDir, folderName))
  }

  /** With an extension, the base name, a dot and the extension make up the key's last segment. */
  lemma StemDotExt(key: string)
    requires ExtOf(key) != []
    ensures Stem(key) + "." + ExtOf(key) == Basename(key)
  {
    DotJoin(Stem(key), ExtOf(key), Extname(key), Basename(key));
  }

  lemma DotJoin(name: string, ext: string, dotted: string, whole: string)
    requires dotted == "." + ext && name + dotted == whole
    ensures name + "." + ext == whole
  {
    assert name + "." + ext == name + ("." + ext);
  }

  /**
   * The download path `/tmp/<name>.<ext>` of a key with an extension lies
   * directly in /tmp and keeps the key's last segment, so its extension and
   * its name are the key's.
   */
  lemma DownloadPathParts(key: string)
    requires ExtOf(key) != []
    ensures var path := JoinUnder(TmpDir, Stem(key) + "." + ExtOf(key));
      && Basename(path) == Basename(key)
      && Dirname(path) == TmpDir
      && Extname(path) == "." + ExtOf(key)
      && Stem(path) == Stem(key)
  {
    var base := Stem(key) + "." + ExtOf(key);
    StemDotExt(key);
    BasenameJoinUnder(TmpDir, base);
    DirnameJoinUnder(TmpDir, base);
    SameBasename(JoinUnder(TmpDir, base), key);
  }

  /**
   * The output directory `/tmp/<name>_<now>` lies directly in /tmp under the
   * folder name, the folder name starts with the base name and "_", and the
   * timestamp reads back from what follows.
   */
  lemma OutputDirParts(fileName: string, now: nat)
    requires '/' !in fileName
    ensures var folder := fileName + "_" + NatToString(now); var dir := JoinUnder(TmpDir, folder);
      && Basename(dir) == folder
      && Dirname(dir) == TmpDir
      && folder[..|fileName| + 1] == fileName + "_"
      && ParseInt(folder[|fileName| + 1..]) == Some(now)
  {
    var stamp := NatToString(now);
    var folder := fileName + "_" + stamp;
    assert folder == (fileName + "_") + stamp;
    assert '/' !in stamp by {
      assert forall i :: 0 <= i < |stamp| ==> IsDigit(stamp[i]);
    }
    assert '/' !in folder;
    assert folder[|fileName| + 1..] == stamp;
    ParseIntNatToString(now, "");
    assert stamp + "" == stamp;
    BasenameJoinUnder(TmpDir, folder);
    DirnameJoinUnder(TmpDir, folder);
  }

  /** A key made of a dot-free name, a dot and an inherited property name gets that name as its extension. */
  lemma ExtOfInherited(stem: string, name: string)
    requires stem != [] && '/' !in stem && '.' !in stem
    requires name != [] && '/' !in name && '.' !in name
    ensures ExtOf(stem + "." + name) == name
  {
    var key := stem + "." + name;
    assert key == stem + ['.'] + name;
    assert '/' !in key;
    assert Basename(key) == key;
    LastIndexOfAfter(stem, '.', name);
    assert |key| >= 3;
    assert key[|stem|..] == "." + name;
  }

  /**
   * As written, the gate lets a key such as "clip.toString" through although
   * no inherited property name is a supported format; the intended gate
   * rejects it.
   */
  lemma GateAdmitsInheritedName(stem: string, name: string)
    requires stem != [] && '/' !in stem && '.' !in stem
    requires name in PrototypeKeys && '/' !in name && '.' !in name
    ensures GateAsWritten(ExtOf(stem + "." + name))
    ensures !Supported(ExtOf(stem + "." + name))
  {
    ExtOfInherited(stem, name);
    PrototypeKeysNotAllowed();
  }

  lemma PrototypeKeysNotAllowed()
    ensures PrototypeKeys * AllowList == {}
  {
  }

  // ---------------------------------------------------------------------
  // Steps, effects and outcomes
  // ---------------------------------------------------------------------

  /** The triggering notification: the source bucket and the raw (URL-encoded) object key. */
  datatype Event = Event(bucket: string, rawKey: string)

  datatype Dimensions = Dimensions(width: int, height: int)

  /**
   * What the handler's surroundings answer: URI decoding (None when it
   * throws), the clock, the output bucket setting, and the outcome of each
   * step — None for the probe when it rejects or finds no video stream,
   * None for the listing when reading the directory throws.
   */
  datatype World = World(
    decode: string -> Option<string>,
    now: nat,
    outputBucket: string,
    mkdirOk: bool,
    downloadOk: bool,
    probe: Option<Dimensions>,
    jobOk: Job -> bool,
    writeOk: bool,
    listing: Option<seq<string>>,
    putOk: string -> bool,
    rmdirOk: bool)

  /** The steps of the handler's try block, in program order. */
  datatype Step = MakeDirStep | DownloadStep | SelectStep | ConvertStep | MasterStep | UploadStep | CleanupStep

  function Rank(s: Step): nat {
    match s
    case MakeDirStep => 0
    case DownloadStep => 1
    case SelectStep => 2
    case ConvertStep => 3
    case MasterStep => 4
    case UploadStep => 5
    case CleanupStep => 6
  }

  /** An action the handler starts. */
  datatype Effect =
    | MakeDir(dir: string)
    | Download(bucket: string, key: string, path: string)
    | Probe(path: string)
    | Transcode(job: Job)
    | WriteFile(path: string, content: string)
    | ListDir(dir: string)
    | Put(request: Upload)
    | RemoveDir(dir: string)

  function StepOf(e: Effect): Step {
    match e
    case MakeDir(_) => MakeDirStep
    case Download(_, _, _) => DownloadStep
    case Probe(_) => SelectStep
    case Transcode(_) => ConvertStep
    case WriteFile(_, _) => MasterStep
    case ListDir(_) => UploadStep
    case Put(_) => UploadStep
    case RemoveDir(_) => CleanupStep
  }

  /**
   * How a run ends: decoding the key threw out of the handler, the format was
   * rejected, every step completed, or a step threw and the catch block
   * logged it.
   */
  datatype Outcome = Escaped | Unsupported | Done | Caught(step: Step)

  /** Effects appear in step order. */
  predicate Ordered(effects: seq<Effect>) {
    forall i, j :: 0 <= i < j < |effects| ==> Rank(StepOf(effects[i])) <= Rank(StepOf(effects[j]))
  }

  // ---------------------------------------------------------------------
  // The planned run
  // ---------------------------------------------------------------------

  function Transcodes(jobs: seq<Job>): (es: seq<Effect>)
    ensures |es| == |jobs|
    ensures forall i :: 0 <= i < |jobs| ==> es[i] == Transcode(jobs[i])
  {
    seq(|jobs|, i requires 0 <= i < |jobs| => Transcode(jobs[i]))
  }

  function Puts(requests: seq<Upload>): (es: seq<Effect>)
    ensures |es| == |requests|
    ensures forall i :: 0 <= i < |requests| ==> es[i] == Put(requests[i])
  {
    seq(|requests|, i requires 0 <= i < |requests| => Put(requests[i]))
  }

  function MasterPath(c: Context): string {
    JoinUnder(c.outputDir, MasterName(c.fileName))
  }

  /** The ladder for the probed dimensions; no ladder when the probe fails. */
  function LadderOf(w: World): seq<Rung> {
    match w.probe
    case None => []
    case Some(d) => SelectLadder(d.width, d.height)
  }

  function FilesOf(w: World): seq<string> {
    match w.listing
    case None => []
    case Some(files) => files
  }

  /** The transcode jobs for a ladder. */
  function JobsFor(c: Context, ladder: seq<Rung>): seq<Job> {
    TranscodeJobs(c.downloadPath, c.outputDir, c.fileName, c.ext, ladder)
  }

  function JobsOf(c: Context, w: World): seq<Job> {
    JobsFor(c, LadderOf(w))
  }

  function RequestsOf(c: Context, w: World): seq<Upload> {
    UploadRequests(w.outputBucket, c.key, c.folderName, FilesOf(w))
  }

  /** The opening three effects: make the directory, download the source, probe it. */
  function Setup(bucket: string, c: Context): seq<Effect> {
    [MakeDir(c.outputDir), Download(bucket, c.key, c.downloadPath), Probe(c.downloadPath)]
  }

  /** Writing the master playlist for a ladder. */
  function MasterWrite(c: Context, ladder: seq<Rung>): Effect {
    WriteFile(MasterPath(c), MasterPlaylist(c.fileName, ladder))
  }

  /**
   * What follows the probe when no step throws: one transcode per job, the
   * master playlist write, the listing, one upload per request and the
   * removal of the directory.
   */
  function Tail(jobs: seq<Job>, write: Effect, dir: string, requests: seq<Upload>): (tail: seq<Effect>)
    ensures |tail| == |jobs| + 3 + |requests|
  {
    Transcodes(jobs) + [write, ListDir(dir)] + Puts(requests) + [RemoveDir(dir)]
  }

  /** A run in which no step throws, from its parts. */
  function Run(setup: seq<Effect>, jobs: seq<Job>, write: Effect, dir: string, requests: seq<Upload>): (run: seq<Effect>)
    ensures |run| == |setup| + |jobs| + 3 + |requests|
  {
    setup + Tail(jobs, write, dir, requests)
  }

  /** Every effect of a run of the handler in which no step throws. */
  function Plan(bucket: string, c: Context, w: World): seq<Effect> {
    Run(Setup(bucket, c), JobsOf(c, w), MasterWrite(c, LadderOf(w)), c.outputDir, RequestsOf(c, w))
  }

  /** Whether every step of the try block completes. */
  predicate Succeeds(c: Context, w: World) {
    && w.mkdirOk
    && w.downloadOk
    && w.probe.Some?
    && AllSucceed(JobsOf(c, w), w.jobOk)
    && w.writeOk
    && w.listing.Some?
    && AllPut(RequestsOf(c, w), w.putOk)
    && w.rmdirOk
  }

  /**
   * Whether step `s` throws, given the run's jobs and upload requests: making
   * the directory, the download, the probe, some transcode, the playlist
   * write, the listing or some upload, and the removal.
   */
  predicate StepFails(jobs: seq<Job>, requests: seq<Upload>, w: World, s: Step) {
    match s
    case MakeDirStep => !w.mkdirOk
    case DownloadStep => !w.downloadOk
    case SelectStep => w.probe.None?
    case ConvertStep => !AllSucceed(jobs, w.jobOk)
    case MasterStep => !w.writeOk
    case UploadStep => w.listing.None? || !AllPut(requests, w.putOk)
    case CleanupStep => !w.rmdirOk
  }

  /** Whether step `s` of a run of a supported key throws. */
  predicate Fails(c: Context, w: World, s: Step) {
    StepFails(JobsOf(c, w), RequestsOf(c, w), w, s)
  }

  /** Step `s` throws and no step before it does. */
  predicate FirstFailure(c: Context, w: World, s: Step) {
    Fails(c, w, s) && forall t :: Rank(t) < Rank(s) ==> !Fails(c, w, t)
  }

  /** Whether every upload request succeeds. */
  predicate AllPut(requests: seq<Upload>, putOk: string -> bool) {
    forall j :: 0 <= j < |requests| ==> putOk(requests[j].key)
  }

  /** Every upload request succeeds exactly when the put of each listed file's upload key does. */
  lemma AllPutKeys(bucket: string, originalKey: string, folderName: string, files: seq<string>, putOk: string -> bool)
    ensures AllPut(UploadRequests(bucket, originalKey, folderName, files), putOk)
      <==> forall j :: 0 <= j < |files| ==> putOk(UploadKey(originalKey, folderName, files[j]))
  {
    var requests := UploadRequests(bucket, originalKey, folderName, files);
    assert forall j :: 0 <= j < |files| ==> requests[j].key == UploadKey(originalKey, folderName, files[j]);
  }

  /** Each part of a tail extends the prefix before it. */
  lemma TailSplit(jobs: seq<Job>, write: Effect, dir: string, requests: seq<Upload>)
    ensures var t, n := Tail(jobs, write, dir, requests), |jobs|;
      && t[..n] == Transcodes(jobs)
      && t[..n + 1] == t[..n] + [write]
      && t[..n + 2] == t[..n + 1] + [ListDir(dir)]
      && t == t[..n + 2 + |requests|] + [RemoveDir(dir)]
  {
    var a := Transcodes(jobs);
    var b := a + [write, ListDir(dir)];
    var d := b + Puts(requests);
    var t := d + [RemoveDir(dir)];
    assert t == Tail(jobs, write, dir, requests);
    assert t[..|d|] == d;
    assert t[..|b|] == b by {
      assert t[..|b|] == d[..|b|];
    }
    assert t[..|a|] == a by {
      assert t[..|a|] == b[..|a|];
    }
    assert t[..|a| + 1] == a + [write] by {
      assert t[..|a| + 1] == b[..|a| + 1];
    }
  }

  /** The uploads started so far extend the tail up to the listing. */
  lemma TailPutsPrefix(jobs: seq<Job>, write: Effect, dir: string, requests: seq<Upload>, p: nat)
    requires p <= |requests|
    ensures var t, n := Tail(jobs, write, dir, requests), |jobs|;
      t[..n + 2 + p] == t[..n + 2] + Puts(requests[..p])
  {
    var b := Transcodes(jobs) + [write, ListDir(dir)];
    var t := Tail(jobs, write, dir, requests);
    assert t == b + (Puts(requests) + [RemoveDir(dir)]);
    assert t[..|b|] == b;
    var puts := Puts(requests[..p]);
    assert t[..|b| + p] == b + puts by {
      assert forall i :: 0 <= i < p ==> puts[i] == Put(requests[i]);
    }
  }

  /** A prefix of a sequence after a fixed head. */
  lemma HeadThen(head: seq<Effect>, rest: seq<Effect>, k: nat)
    requires k <= |rest|
    ensures (head + rest)[..|head| + k] == head + rest[..k]
  {
    assert (head + rest)[..|head| + k] == head + rest[..k];
  }

  /** The rank of the step at position `i` of a run with `n` jobs and `m` uploads. */
  function RunRank(i: nat, n: nat, m: nat): nat {
    if i < 3 then i
    else if i < 3 + n then 3
    else if i == 3 + n then 4
    else if i < 5 + n + m then 5
    else 6
  }

  /** A run's setup holds the directory creation, the download and the probe, in that order. */
  predicate SetupShape(setup: seq<Effect>) {
    |setup| == 3 && setup[0].MakeDir? && setup[1].Download? && setup[2].Probe?
  }

  /** The step of each effect of a run, by position. */
  lemma RunRankAt(setup: seq<Effect>, jobs: seq<Job>, write: Effect, dir: string, requests: seq<Upload>, i: nat)
    requires SetupShape(setup) && write.WriteFile?
    requires i < |Run(setup, jobs, write, dir, requests)|
    ensures Rank(StepOf(Run(setup, jobs, write, dir, requests)[i])) == RunRank(i, |jobs|, |requests|)
  {
    var a := Transcodes(jobs);
    var b := a + [write, ListDir(dir)];
    var d := b + Puts(requests);
    var t := d + [RemoveDir(dir)];
    assert t == Tail(jobs, write, dir, requests);
    var run := setup + t;
    if i >= 3 {
      var j := i - 3;
      assert run[i] == t[j];
      if j < |d| {
        assert t[j] == d[j];
        if j < |b| {
          assert d[j] == b[j];
          if j < |a| {
            assert b[j] == a[j];
          }
        } else {
          assert d[j] == Puts(requests)[j - |b|];
        }
      }
    }
  }

  lemma RunRanks(setup: seq<Effect>, jobs: seq<Job>, write: Effect, dir: string, requests: seq<Upload>)
    requires SetupShape(setup) && write.WriteFile?
    ensures var run := Run(setup, jobs, write, dir, requests);
      forall i :: 0 <= i < |run| ==> Rank(StepOf(run[i])) == RunRank(i, |jobs|, |requests|)
  {
    forall i | 0 <= i < |Run(setup, jobs, write, dir, requests)|
      ensures Rank(StepOf(Run(setup, jobs, write, dir, requests)[i])) == RunRank(i, |jobs|, |requests|)
    {
      RunRankAt(setup, jobs, write, dir, requests, i);
    }
  }

  /**
   * Every prefix of a run is in step order; it holds the master playlist
   * write exactly when it reaches past the transcodes, and the directory
   * removal exactly when it is the whole run.
   */
  lemma RunPrefix(setup: seq<Effect>, jobs: seq<Job>, write: Effect, dir: string, requests: seq<Upload>, k: nat)
    requires SetupShape(setup) && write.WriteFile?
    requires k <= |Run(setup, jobs, write, dir, requests)|
    ensures var run := Run(setup, jobs, write, dir, requests); var p := run[..k];
      && p <= run
      && Ordered(p)
      && ((exists i :: 0 <= i < |p| && p[i].WriteFile?) <==> k > 3 + |jobs|)
      && ((exists i :: 0 <= i < |p| && p[i].RemoveDir?) <==> k == |run|)
  {
    var run := Run(setup, jobs, write, dir, requests);
    var p := run[..k];
    var n, m := |jobs|, |requests|;
    RunRanks(setup, jobs, write, dir, requests);
    assert forall i :: 0 <= i < k ==> p[i] == run[i];
    assert forall i :: 0 <= i < k ==> Rank(StepOf(p[i])) == RunRank(i, n, m);
    if k > 3 + n {
      assert Rank(StepOf(p[3 + n])) == 4;
    }
    if k == |run| {
      assert Rank(StepOf(p[k - 1])) == 6;
    }
  }

  // ---------------------------------------------------------------------
  // The handler
  // ---------------------------------------------------------------------

  function DecodedKey(ev: Event, w: World): Option<string> {
    w.decode(ReplacePlus(ev.rawKey))
  }

  /** How far a run gets: the number of planned effects it starts, and how it ends. */
  datatype Halt = Halt(length: nat, outcome: Outcome)

  /**
   * Where the part of a run after the probe stops: at the first failing
   * transcode, the playlist write, the listing, the first failing upload or
   * the removal — or after the removal when nothing throws.
   */
  function TailHalt(jobs: seq<Job>, requests: seq<Upload>, w: World): (h: Halt)
    ensures h.length <= |jobs| + 3 + |requests|
    ensures h.outcome.Done? || h.outcome.Caught?
    ensures h.outcome.Done? ==> forall t :: 3 <= Rank(t) ==> !StepFails(jobs, requests, w, t)
    ensures h.outcome.Caught? ==> 3 <= Rank(h.outcome.step) && StepFails(jobs, requests, w, h.outcome.step)
    ensures h.outcome.Caught? ==> forall t :: 3 <= Rank(t) < Rank(h.outcome.step) ==> !StepFails(jobs, requests, w, t)
    ensures h.outcome == Caught(ConvertStep) ==> h.length == |jobs|
    ensures w.listing.Some? && h.outcome == Caught(UploadStep) ==> h.length == |jobs| + 2 + Attempted(requests, w.putOk)
  {
    var n := |jobs|;
    if !AllSucceed(jobs, w.jobOk) then Halt(n, Caught(ConvertStep))
    else if !w.writeOk then Halt(n + 1, Caught(MasterStep))
    else if w.listing.None? then Halt(n + 2, Caught(UploadStep))
    else if !AllPut(requests, w.putOk) then Halt(n + 2 + Attempted(requests, w.putOk), Caught(UploadStep))
    else Halt(n + 3 + |requests|, if w.rmdirOk then Done else Caught(CleanupStep))
  }

  /**
   * Where a run with the given jobs and upload requests stops: at the
   * directory, the download or the probe when one of them throws, otherwise
   * where its tail stops.
   */
  function HaltFor(jobs: seq<Job>, requests: seq<Upload>, w: World): (h: Halt)
    ensures h.length <= 6 + |jobs| + |requests|
    ensures h.outcome.Done? || h.outcome.Caught?
    ensures h.outcome.Done? ==> forall t :: !StepFails(jobs, requests, w, t)
    ensures h.outcome.Caught? ==> StepFails(jobs, requests, w, h.outcome.step)
    ensures h.outcome.Caught? ==> forall t :: Rank(t) < Rank(h.outcome.step) ==> !StepFails(jobs, requests, w, t)
  {
    if !w.mkdirOk then Halt(1, Caught(MakeDirStep))
    else if !w.downloadOk then Halt(2, Caught(DownloadStep))
    else if w.probe.None? then Halt(3, Caught(SelectStep))
    else
      var h := TailHalt(jobs, requests, w);
      Halt(3 + h.length, h.outcome)
  }

  /** Where a run of a supported key stops: the first step that throws is the one caught. */
  function HaltOf(c: Context, w: World): (h: Halt)
    ensures h.length <= 6 + |JobsOf(c, w)| + |RequestsOf(c, w)|
    ensures h.outcome.Done? || h.outcome.Caught?
    ensures h.outcome.Done? ==> forall t :: !Fails(c, w, t)
    ensures h.outcome.Caught? ==> FirstFailure(c, w, h.outcome.step)
  {
    HaltFor(JobsOf(c, w), RequestsOf(c, w), w)
  }

  /** The effects one invocation starts, in order, and how it ends. */
  datatype Trace = Trace(effects: seq<Effect>, outcome: Outcome)

  /**
   * The reference behaviour of one invocation: an undecodable key escapes
   * and an unsupported extension returns, both before any effect; otherwise
   * the planned run up to where it halts.
   */
  function Expected(ev: Event, w: World): Trace {
    match DecodedKey(ev, w)
    case None => Trace([], Escaped)
    case Some(key) =>
      var c := Derive(key, w.now);
      if !Supported(c.ext) then Trace([], Unsupported)
      else
        var h := HaltOf(c, w);
        Trace(Plan(ev.bucket, c, w)[..h.length], h.outcome)
  }

  /** One invocation of the handler. */
  method Handle(ev: Event, w: World) returns (effects: seq<Effect>, outcome: Outcome)
    ensures Trace(effects, outcome) == Expected(ev, w)
  {
    var decoded := w.decode(ReplacePlus(ev.rawKey));
    if decoded.None? {
      return [], Escaped;
    }
    var c := Derive(decoded.value, w.now);
    if !Supported(c.ext) {
      return [], Unsupported;
    }
    effects, outcome := Convert(ev.bucket, c, w);
  }

  /**
   * The try block: each step starts its effect and, when it throws, ends the
   * run with the step that threw; the effects are the plan up to that point.
   */
  method Convert(bucket: string, c: Context, w: World) returns (effects: seq<Effect>, outcome: Outcome)
    ensures effects == Plan(bucket, c, w)[..HaltOf(c, w).length]
    ensures outcome == HaltOf(c, w).outcome
  {
    var setup, ladder := Setup(bucket, c), LadderOf(w);
    RunHalted(setup, JobsFor(c, ladder), MasterWrite(c, ladder), c.outputDir, RequestsOf(c, w), w);
    effects := setup[..1];
    if !w.mkdirOk {
      return effects, Caught(MakeDirStep);
    }
    effects := setup[..2];
    if !w.downloadOk {
      return effects, Caught(DownloadStep);
    }
    effects := setup;
    if w.probe.None? {
      return effects, Caught(SelectStep);
    }
    var tail;
    tail, outcome := Publish(c, w, JobsFor(c, ladder), MasterPlaylist(c.fileName, ladder));
    effects := effects + tail;
  }

  /**
   * Where a run stops, from its parts: after the directory, the download or
   * the probe when that step throws, otherwise after the setup and the part
   * of the tail that runs.
   */
  lemma RunHalted(setup: seq<Effect>, jobs: seq<Job>, write: Effect, dir: string, requests: seq<Upload>, w: World)
    requires |setup| == 3
    ensures var run, h := Run(setup, jobs, write, dir, requests), HaltFor(jobs, requests, w);
      && (!w.mkdirOk ==> run[..h.length] == setup[..1] && h.outcome == Caught(MakeDirStep))
      && (w.mkdirOk && !w.downloadOk ==> run[..h.length] == setup[..2] && h.outcome == Caught(DownloadStep))
      && (w.mkdirOk && w.downloadOk && w.probe.None? ==> run[..h.length] == setup && h.outcome == Caught(SelectStep))
      && (w.mkdirOk && w.downloadOk && w.probe.Some? ==>
            var t, th := Tail(jobs, write, dir, requests), TailHalt(jobs, requests, w);
            run[..h.length] == setup + t[..th.length] && h.outcome == th.outcome)
  {
    var t := Tail(jobs, write, dir, requests);
    var th := TailHalt(jobs, requests, w);
    if w.mkdirOk && w.downloadOk && w.probe.Some? {
      HeadThen(setup, t, th.length);
    }
  }

  /**
   * Steps 4 to 7 of the try block, given the jobs and the master playlist
   * built from the selected ladder: transcode, write the master playlist,
   * upload the directory's files, remove the directory; the effects are the
   * tail up to the first step that throws.
   */
  method Publish(c: Context, w: World, jobs: seq<Job>, playlist: string) returns (effects: seq<Effect>, outcome: Outcome)
    ensures var master, requests := WriteFile(MasterPath(c), playlist), RequestsOf(c, w);
      && effects == Tail(jobs, master, c.outputDir, requests)[..TailHalt(jobs, requests, w).length]
      && outcome == TailHalt(jobs, requests, w).outcome
  {
    ghost var requests := RequestsOf(c, w);
    var master := WriteFile(MasterPath(c), playlist);
    ghost var t := Tail(jobs, master, c.outputDir, requests);
    TailSplit(jobs, master, c.outputDir, requests);
    effects := Transcodes(jobs);
    if !AllSucceed(jobs, w.jobOk) {
      return effects, Caught(ConvertStep);
    }
    effects := effects + [master];
    if !w.writeOk {
      return effects, Caught(MasterStep);
    }
    effects := effects + [ListDir(c.outputDir)];
    if w.listing.None? {
      return effects, Caught(UploadStep);
    }
    var sent, ok := UploadAll(w.outputBucket, w.listing.value, c.key, c.folderName, w.putOk);
    assert requests == UploadRequests(w.outputBucket, c.key, c.folderName, w.listing.value);
    TailPutsPrefix(jobs, master, c.outputDir, requests, |sent|);
    effects := effects + Puts(sent);
    if !ok {
      assert !AllPut(requests, w.putOk) by {
        assert requests[|sent| - 1] == sent[|sent| - 1];
      }
      return effects, Caught(UploadStep);
    }
    assert sent == requests;
    assert AllPut(requests, w.putOk);
    effects := effects + [RemoveDir(c.outputDir)];
    if !w.rmdirOk {
      return effects, Caught(CleanupStep);
    }
    outcome := Done;
  }

  // ---------------------------------------------------------------------
  // What a run guarantees
  // ---------------------------------------------------------------------

  /** The effects a supported run starts: the plan up to where it halts. */
  function Started(bucket: string, c: Context, w: World): seq<Effect> {
    Plan(bucket, c, w)[..HaltOf(c, w).length]
  }

  /** The facts about a prefix of the plan, for the prefix a run starts. */
  lemma StartedPrefix(bucket: string, c: Context, w: World)
    ensures var run, p, n := Plan(bucket, c, w), Started(bucket, c, w), |JobsOf(c, w)|;
      && p <= run
      && Ordered(p)
      && ((exists i :: 0 <= i < |p| && p[i].WriteFile?) <==> |p| > 3 + n)
      && ((exists i :: 0 <= i < |p| && p[i].RemoveDir?) <==> |p| == |run|)
  {
    var setup := Setup(bucket, c);
    assert SetupShape(setup);
    RunPrefix(setup, JobsOf(c, w), MasterWrite(c, LadderOf(w)), c.outputDir, RequestsOf(c, w), HaltOf(c, w).length);
  }

  /** A tail completes exactly when each of its steps does, and then it is whole. */
  lemma TailDone(jobs: seq<Job>, requests: seq<Upload>, w: World)
    ensures var h := TailHalt(jobs, requests, w);
      && (h.outcome.Done? <==> AllSucceed(jobs, w.jobOk) && w.writeOk && w.listing.Some? && AllPut(requests, w.putOk) && w.rmdirOk)
      && (h.outcome.Done? ==> h.length == |jobs| + 3 + |requests|)
  {
  }

  /** Every step of the try block completes exactly when no step throws. */
  lemma SucceedsIffNoFailure(c: Context, w: World)
    ensures Succeeds(c, w) <==> forall t :: !Fails(c, w, t)
  {
    if !Succeeds(c, w) {
      if !w.mkdirOk { assert Fails(c, w, MakeDirStep); }
      else if !w.downloadOk { assert Fails(c, w, DownloadStep); }
      else if w.probe.None? { assert Fails(c, w, SelectStep); }
      else if !AllSucceed(JobsOf(c, w), w.jobOk) { assert Fails(c, w, ConvertStep); }
      else if !w.writeOk { assert Fails(c, w, MasterStep); }
      else if w.listing.None? || !AllPut(RequestsOf(c, w), w.putOk) { assert Fails(c, w, UploadStep); }
      else { assert Fails(c, w, CleanupStep); }
    }
  }

  /** A run that completes has started every effect of its plan. */
  lemma HaltForDone(jobs: seq<Job>, requests: seq<Upload>, w: World)
    requires HaltFor(jobs, requests, w).outcome.Done?
    ensures HaltFor(jobs, requests, w).length == 6 + |jobs| + |requests|
  {
    TailDone(jobs, requests, w);
  }

  /** A run completes exactly when every step does, and then it has started the whole plan. */
  lemma DoneIffSucceeds(bucket: string, c: Context, w: World)
    ensures HaltOf(c, w).outcome.Done? <==> Succeeds(c, w)
    ensures HaltOf(c, w).outcome.Done? ==> Started(bucket, c, w) == Plan(bucket, c, w)
  {
    SucceedsIffNoFailure(c, w);
    var h := HaltOf(c, w);
    if h.outcome.Done? {
      HaltForDone(JobsOf(c, w), RequestsOf(c, w), w);
      var run := Plan(bucket, c, w);
      assert h.length == |run|;
      assert run[..|run|] == run;
    }
  }

  /** The master playlist is written only after every transcode succeeded. */
  lemma MasterAfterTranscodes(bucket: string, c: Context, w: World)
    ensures var p := Started(bucket, c, w);
      (exists i :: 0 <= i < |p| && p[i].WriteFile?) ==> AllSucceed(JobsOf(c, w), w.jobOk)
  {
    StartedPrefix(bucket, c, w);
  }

  /**
   * The working directory is removed only by a run that reached the
   * removal: a completed run, or one whose removal itself threw.
   */
  lemma RemovedIffReached(bucket: string, c: Context, w: World)
    ensures var p := Started(bucket, c, w);
      (exists i :: 0 <= i < |p| && p[i].RemoveDir?) <==> HaltOf(c, w).outcome in {Done, Caught(CleanupStep)}
    ensures var p := Started(bucket, c, w);
      (exists i :: 0 <= i < |p| && p[i].RemoveDir?) ==> forall t :: Rank(t) < Rank(CleanupStep) ==> !Fails(c, w, t)
  {
    StartedPrefix(bucket, c, w);
    var h := HaltOf(c, w);
    if w.mkdirOk && w.downloadOk && w.probe.Some? {
      var requests := RequestsOf(c, w);
      if AllSucceed(JobsOf(c, w), w.jobOk) && w.writeOk && w.listing.Some? && !AllPut(requests, w.putOk) {
        assert Attempted(requests, w.putOk) <= |requests|;
      }
    }
  }

  /** Where the tail of a run that throws halts, the plan holds an effect of the step that threw. */
  lemma TailHaltRank(jobs: seq<Job>, requests: seq<Upload>, w: World)
    requires TailHalt(jobs, requests, w).outcome.Caught?
    ensures var h := TailHalt(jobs, requests, w);
      h.length >= 1 && RunRank(3 + h.length - 1, |jobs|, |requests|) == Rank(h.outcome.step)
  {
    if !AllSucceed(jobs, w.jobOk) {
      assert jobs != [];
    }
  }

  /** Where a run with the given jobs and requests halts on a throw, the plan holds an effect of the step that threw. */
  lemma HaltForRank(jobs: seq<Job>, requests: seq<Upload>, w: World)
    requires HaltFor(jobs, requests, w).outcome.Caught?
    ensures var h := HaltFor(jobs, requests, w);
      h.length >= 1 && RunRank(h.length - 1, |jobs|, |requests|) == Rank(h.outcome.step)
  {
    if w.mkdirOk && w.downloadOk && w.probe.Some? {
      TailHaltRank(jobs, requests, w);
    }
  }

  /** Where a run that throws halts, the plan holds an effect of the step that threw. */
  lemma HaltRank(c: Context, w: World)
    requires HaltOf(c, w).outcome.Caught?
    ensures var h := HaltOf(c, w);
      h.length >= 1 && RunRank(h.length - 1, |JobsOf(c, w)|, |RequestsOf(c, w)|) == Rank(h.outcome.step)
  {
    HaltForRank(JobsOf(c, w), RequestsOf(c, w), w);
  }

  /** A run built from its parts that throws ends with an effect of the step that threw. */
  lemma RunCaughtAtLast(setup: seq<Effect>, jobs: seq<Job>, write: Effect, dir: string, requests: seq<Upload>, w: World)
    requires SetupShape(setup) && write.WriteFile?
    requires HaltFor(jobs, requests, w).outcome.Caught?
    ensures var h := HaltFor(jobs, requests, w);
      var p := Run(setup, jobs, write, dir, requests)[..h.length];
      p != [] && StepOf(p[|p| - 1]) == h.outcome.step
  {
    var h := HaltFor(jobs, requests, w);
    var run := Run(setup, jobs, write, dir, requests);
    HaltForRank(jobs, requests, w);
    RunRankAt(setup, jobs, write, dir, requests, h.length - 1);
    RankInjective(StepOf(run[h.length - 1]), h.outcome.step);
    assert run[..h.length][h.length - 1] == run[h.length - 1];
  }

  /** A run that throws ends with the effect of the step that threw. */
  lemma CaughtAtLast(bucket: string, c: Context, w: World)
    requires HaltOf(c, w).outcome.Caught?
    ensures var p := Started(bucket, c, w);
      p != [] && StepOf(p[|p| - 1]) == HaltOf(c, w).outcome.step
  {
    RunCaughtAtLast(Setup(bucket, c), JobsOf(c, w), MasterWrite(c, LadderOf(w)), c.outputDir, RequestsOf(c, w), w);
  }

  /** At most one step is the first to throw. */
  lemma FirstFailureUnique(c: Context, w: World, s: Step, u: Step)
    requires FirstFailure(c, w, s) && FirstFailure(c, w, u)
    ensures s == u
  {
    assert Rank(s) == Rank(u);
    RankInjective(s, u);
  }

  /** A run is caught at step `s` exactly when `s` is the first step that throws. */
  lemma CaughtAtFirstFailure(c: Context, w: World, s: Step)
    ensures HaltOf(c, w).outcome == Caught(s) <==> FirstFailure(c, w, s)
  {
    var h := HaltOf(c, w);
    if FirstFailure(c, w, s) {
      assert h.outcome.Caught?;
      FirstFailureUnique(c, w, s, h.outcome.step);
    }
  }

  /** Once a step throws, a run built from its parts starts no effect of any later step. */
  lemma RunNothingAfterFailure(setup: seq<Effect>, jobs: seq<Job>, write: Effect, dir: string, requests: seq<Upload>, w: World, s: Step)
    requires SetupShape(setup) && write.WriteFile?
    requires StepFails(jobs, requests, w, s)
    ensures HaltFor(jobs, requests, w).outcome.Caught?
    ensures var p := Run(setup, jobs, write, dir, requests)[..HaltFor(jobs, requests, w).length];
      forall i :: 0 <= i < |p| ==> Rank(StepOf(p[i])) <= Rank(s)
  {
    var h := HaltFor(jobs, requests, w);
    assert h.outcome.Caught?;
    assert Rank(h.outcome.step) <= Rank(s);
    RunPrefix(setup, jobs, write, dir, requests, h.length);
    RunCaughtAtLast(setup, jobs, write, dir, requests, w);
    var p := Run(setup, jobs, write, dir, requests)[..h.length];
    forall i | 0 <= i < |p|
      ensures Rank(StepOf(p[i])) <= Rank(s)
    {
      if i < |p| - 1 {
        assert Rank(StepOf(p[i])) <= Rank(StepOf(p[|p| - 1]));
      }
    }
  }

  /** Once a step throws, the run starts no effect of any later step. */
  lemma NothingAfterFailure(bucket: string, c: Context, w: World, s: Step)
    requires Fails(c, w, s)
    ensures HaltOf(c, w).outcome.Caught?
    ensures var p := Started(bucket, c, w);
      forall i :: 0 <= i < |p| ==> Rank(StepOf(p[i])) <= Rank(s)
  {
    RunNothingAfterFailure(Setup(bucket, c), JobsOf(c, w), MasterWrite(c, LadderOf(w)), c.outputDir, RequestsOf(c, w), w, s);
  }

  lemma RankInjective(s: Step, t: Step)
    requires Rank(s) == Rank(t)
    ensures s == t
  {
  }

  /**
   * What a run of a supported key guarantees: it starts a prefix of the plan,
   * in step order; it completes exactly when every step does, and then it
   * has started the whole plan; it writes the master playlist only after
   * every transcode succeeded; it removes the working directory only when it
   * reaches the removal; and when a step throws, its last effect is that
   * step's.
   */
  lemma RunGuarantees(bucket: string, c: Context, w: World)
    ensures var p, h := Started(bucket, c, w), HaltOf(c, w);
      && p <= Plan(bucket, c, w)
      && Ordered(p)
      && (h.outcome.Done? <==> Succeeds(c, w))
      && (h.outcome.Done? ==> p == Plan(bucket, c, w))
      && ((exists i :: 0 <= i < |p| && p[i].WriteFile?) ==> AllSucceed(JobsOf(c, w), w.jobOk))
      && ((exists i :: 0 <= i < |p| && p[i].RemoveDir?) <==> h.outcome in {Done, Caught(CleanupStep)})
      && (h.outcome.Caught? ==> p != [] && StepOf(p[|p| - 1]) == h.outcome.step)
      && h.outcome !in {Escaped, Unsupported}
      && (forall s :: h.outcome == Caught(s) <==> FirstFailure(c, w, s))
      && (forall s, i :: Fails(c, w, s) && 0 <= i < |p| ==> Rank(StepOf(p[i])) <= Rank(s))
  {
    StartedPrefix(bucket, c, w);
    DoneIffSucceeds(bucket, c, w);
    MasterAfterTranscodes(bucket, c, w);
    RemovedIffReached(bucket, c, w);
    if HaltOf(c, w).outcome.Caught? {
      CaughtAtLast(bucket, c, w);
    }
    forall s {
      CaughtAtFirstFailure(c, w, s);
    }
    forall s | Fails(c, w, s) {
      NothingAfterFailure(bucket, c, w, s);
    }
  }

  /**
   * One invocation: an undecodable key escapes and an unsupported extension
   * returns, both before any effect; a supported key runs the try block on
   * what the handler derived from it.
   */
  lemma HandleCases(ev: Event, w: World)
    ensures var t := Expected(ev, w);
      && (t.outcome.Escaped? <==> DecodedKey(ev, w).None?)
      && (t.outcome.Escaped? || t.outcome.Unsupported? ==> t.effects == [])
    ensures DecodedKey(ev, w).Some? ==>
      var t, c := Expected(ev, w), Derive(DecodedKey(ev, w).value, w.now);
      && (t.outcome.Unsupported? <==> !Supported(c.ext))
      && (Supported(c.ext) ==> t == Trace(Started(ev.bucket, c, w), HaltOf(c, w).outcome))
      && (Supported(c.ext) ==> forall s :: t.outcome == Caught(s) <==> FirstFailure(c, w, s))
      && (Supported(c.ext) ==> forall s, i :: Fails(c, w, s) && 0 <= i < |t.effects| ==> Rank(StepOf(t.effects[i])) <= Rank(s))
  {
    if DecodedKey(ev, w).Some? {
      var c := Derive(DecodedKey(ev, w).value, w.now);
      if Supported(c.ext) {
        RunGuarantees(ev.bucket, c, w);
      }
    }
  }
}
