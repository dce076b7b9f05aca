/**
 * The transcoder container's job (container/index.ts): read the two environment
 * variables, fetch the uploaded video from the temporary bucket, convert it to HLS,
 * push the output folder to the permanent bucket, delete the source, exit with 0.
 *
 * The two buckets are maps from object key to content, held by a class whose fields
 * the steps update. The local disk is Hls.LocalDisk. The storage calls live in
 * container/utils/s3utils, which is not part of this model: here a download fails
 * when the key is absent or when the caller says the transfer failed, an upload
 * writes every file under the folder at `<prefix>/<path relative to the folder>`,
 * and a delete removes the key unless the caller says it failed.
 */
module TranscodeJob {
  import opened Wrappers
  import opened Text
  import opened Hls

  const TemporaryBucket: string := "anand-video-stream-temp"
  const PermanentBucket: string := "anand-video-stream-permanent"

  /** The two variables the job reads; `None` when unset. */
  datatype Env = Env(tempVideoKey: Option<string>, s3OutputPath: Option<string>)

  /** `!value` on an environment variable: unset or empty. */
  predicate Falsy(v: Option<string>) {
    v == None || v.value == ""
  }

  /** Which of the storage calls fail for reasons outside the model (network, permissions). */
  datatype Faults = Faults(downloadFails: bool, uploadFails: bool, deleteFails: bool)

  /** The steps that completed, in the order they completed. */
  datatype Step = Fetched | Converted | Pushed | Deleted

  const AllSteps: seq<Step> := [Fetched, Converted, Pushed, Deleted]

  /** Why the job stopped; the catch block logs it and exits with 0 all the same. */
  datatype JobError =
    | MissingVideoKey
    | MissingOutputPath
    | DownloadFailed
    | ConvertFailed(cause: ConvertError)
    | UploadFailed
    | DeleteFailed

  /** `path.join(__dirname, "videos", "input")` */
  function InputDir(root: string): string {
    Join(Join(root, "videos"), "input")
  }

  /** `path.join(__dirname, "videos/output")` */
  function OutputDir(root: string): string {
    Join(root, "videos/output")
  }

  /** Where the download is written: `path.join(inputPath, key)`. */
  function DownloadPath(root: string, key: string): string {
    Join(InputDir(root), key)
  }

  /** What is handed to the converter: `path.join(__dirname, "videos/input/" + key)`. */
  function InputVideoPath(root: string, key: string): string {
    Join(root, "videos/input/" + key)
  }

  /** The converter reads exactly the file the download wrote. */
  lemma ConvertReadsDownload(root: string, key: string)
    ensures InputVideoPath(root, key) == DownloadPath(root, key)
  {
    assert Join(root, "videos/input/" + key) == root + "/" + "videos" + "/" + "input" + "/" + key;
  }

  /** The object key of a file under `dir`: the prefix, then its path below `dir`. */
  function ObjectKey(dir: string, prefix: string, path: string): string
    requires |path| >= |dir|
  {
    prefix + path[|dir|..]
  }

  predicate Under(dir: string, path: string) {
    dir + "/" <= path
  }

  lemma ObjectKeyInjective(dir: string, prefix: string)
    ensures forall p, q :: Under(dir, p) && Under(dir, q) && ObjectKey(dir, prefix, p) == ObjectKey(dir, prefix, q) ==> p == q
  {
    forall p, q | Under(dir, p) && Under(dir, q) && ObjectKey(dir, prefix, p) == ObjectKey(dir, prefix, q)
      ensures p == q
    {
      var kp, kq := ObjectKey(dir, prefix, p), ObjectKey(dir, prefix, q);
      assert p[|dir|..] == kp[|prefix|..];
      assert q[|dir|..] == kq[|prefix|..];
      assert p == p[..|dir|] + p[|dir|..];
      assert q == q[..|dir|] + q[|dir|..];
    }
  }

  /** `uploadFolderToS3(dir, bucket, prefix)`: the objects it writes. */
  function UploadedObjects(files: map<string, string>, dir: string, prefix: string): map<string, string> {
    ObjectKeyInjective(dir, prefix);
    map p | p in files && Under(dir, p) :: ObjectKey(dir, prefix, p) := files[p]
  }

  /** A file under the uploaded folder is published under the prefix. */
  lemma UploadedFile(files: map<string, string>, dir: string, prefix: string, rel: string)
    requires Join(dir, rel) in files
    ensures prefix + "/" + rel in UploadedObjects(files, dir, prefix)
    ensures UploadedObjects(files, dir, prefix)[prefix + "/" + rel] == files[Join(dir, rel)]
  {
    var p := Join(dir, rel);
    assert Under(dir, p);
    assert ObjectKey(dir, prefix, p) == prefix + "/" + rel;
    ObjectKeyInjective(dir, prefix);
  }

  datatype World = World(temporary: map<string, string>, permanent: map<string, string>, disk: Disk)

  datatype JobResult = JobResult(world: World, log: seq<Step>, error: Option<JobError>, exitCode: int)

  /** The effect and outcome of one run of the container. */
  function JobSpec(env: Env, root: string, faults: Faults, encode: Rung -> RungOutcome, w: World): JobResult {
    if Falsy(env.tempVideoKey) then JobResult(w, [], Some(MissingVideoKey), 0)
    else if Falsy(env.s3OutputPath) then JobResult(w, [], Some(MissingOutputPath), 0)
    else
      var key, prefix := env.tempVideoKey.value, env.s3OutputPath.value;
      var disk1 := Disk(w.disk.files, w.disk.dirs + {InputDir(root)});
      if faults.downloadFails || key !in w.temporary
      then JobResult(World(w.temporary, w.permanent, disk1), [], Some(DownloadFailed), 0)
      else
        var disk2 := Disk(disk1.files[DownloadPath(root, key) := w.temporary[key]], disk1.dirs + {OutputDir(root)});
        var (disk3, converted) := ConvertSpec(Ladder, disk2, InputVideoPath(root, key), OutputDir(root), encode);
        if converted.Err?
        then JobResult(World(w.temporary, w.permanent, disk3), [Fetched], Some(ConvertFailed(converted.error)), 0)
        else PublishSpec(World(w.temporary, w.permanent, disk3), root, key, prefix, faults)
  }

  /** The last two steps, once the output folder is on disk: push it, then delete the source. */
  function PublishSpec(w: World, root: string, key: string, prefix: string, faults: Faults): JobResult {
    if faults.uploadFails
    then JobResult(w, [Fetched, Converted], Some(UploadFailed), 0)
    else
      var permanent := w.permanent + UploadedObjects(w.disk.files, OutputDir(root), prefix);
      if faults.deleteFails
      then JobResult(World(w.temporary, permanent, w.disk), [Fetched, Converted, Pushed], Some(DeleteFailed), 0)
      else JobResult(World(w.temporary - {key}, permanent, w.disk), AllSteps, None, 0)
  }

  class Buckets {
    var temporary: map<string, string>
    var permanent: map<string, string>

    constructor (temporary: map<string, string>, permanent: map<string, string>)
      ensures this.temporary == temporary && this.permanent == permanent
    {
      this.temporary := temporary;
      this.permanent := permanent;
    }

    /** `DownloadObjectFromS3(TemporaryBucket, key, ...)`: the object's content. */
    method Download(key: string, fails: bool) returns (r: Option<string>)
      ensures r.Some? <==> !fails && key in temporary
      ensures r.Some? ==> r.value == temporary[key]
    {
      if fails || key !in temporary {
        return None;
      }
      return Some(temporary[key]);
    }

    /** `uploadFolderToS3(dir, PermanentBucket, prefix)` */
    method UploadFolder(files: map<string, string>, dir: string, prefix: string, fails: bool) returns (ok: bool)
      modifies this
      ensures ok == !fails
      ensures temporary == old(temporary)
      ensures permanent == if ok then old(permanent) + UploadedObjects(files, dir, prefix) else old(permanent)
    {
      if fails {
        return false;
      }
      permanent := permanent + UploadedObjects(files, dir, prefix);
      return true;
    }

    /** `DeleteObjectFromS3(TemporaryBucket, key)` */
    method Delete(key: string, fails: bool) returns (ok: bool)
      modifies this
      ensures ok == !fails
      ensures permanent == old(permanent)
      ensures temporary == if ok then old(temporary) - {key} else old(temporary)
    {
      if fails {
        return false;
      }
      temporary := temporary - {key};
      return true;
    }
  }

  /** The container's entry point, from the environment checks to `process.exit`. */
  method RunJob(store: Buckets, disk: LocalDisk, env: Env, root: string, faults: Faults, encode: Rung -> RungOutcome)
    returns (exitCode: int, log: seq<Step>, error: Option<JobError>)
    modifies store, disk
    ensures JobResult(World(store.temporary, store.permanent, disk.State()), log, error, exitCode)
         == JobSpec(env, root, faults, encode, old(World(store.temporary, store.permanent, disk.State())))
  {
    ghost var w := World(store.temporary, store.permanent, disk.State());
    log := [];
    exitCode := 0;
    if env.tempVideoKey == None || env.tempVideoKey.value == "" {
      error := Some(MissingVideoKey);
      return;
    }
    if env.s3OutputPath == None || env.s3OutputPath.value == "" {
      error := Some(MissingOutputPath);
      return;
    }
    var key, prefix := env.tempVideoKey.value, env.s3OutputPath.value;
    disk.MakeDir(InputDir(root));
    var content := store.Download(key, faults.downloadFails);
    if content.None? {
      error := Some(DownloadFailed);
      return;
    }
    disk.WriteFile(DownloadPath(root, key), content.value);
    log := log + [Fetched];
    disk.MakeDir(OutputDir(root));
    ghost var disk2 := disk.State();
    var converted := disk.Convert(Ladder, InputVideoPath(root, key), OutputDir(root), encode);
    ghost var disk3 := disk.State();
    assert (disk3, converted) == ConvertSpec(Ladder, disk2, InputVideoPath(root, key), OutputDir(root), encode);
    if converted.Err? {
      error := Some(ConvertFailed(converted.error));
      return;
    }
    assert JobSpec(env, root, faults, encode, w) == PublishSpec(World(w.temporary, w.permanent, disk3), root, key, prefix, faults);
    log, error := Publish(store, disk.files, root, key, prefix, faults);
  }

  /** Pushes the output folder, then deletes the source; the steps after a successful conversion. */
  method Publish(store: Buckets, files: map<string, string>, root: string, key: string, prefix: string, faults: Faults)
    returns (log: seq<Step>, error: Option<JobError>)
    modifies store
    ensures var res := PublishSpec(World(old(store.temporary), old(store.permanent), Disk(files, {})), root, key, prefix, faults);
      && store.temporary == res.world.temporary && store.permanent == res.world.permanent
      && log == res.log && error == res.error
  {
    log := [Fetched, Converted];
    var uploaded := store.UploadFolder(files, OutputDir(root), prefix, faults.uploadFails);
    if !uploaded {
      return log, Some(UploadFailed);
    }
    log := log + [Pushed];
    var deleted := store.Delete(key, faults.deleteFails);
    if !deleted {
      return log, Some(DeleteFailed);
    }
    log := log + [Deleted];
    error := None;
  }

  // ----- properties of the job -----

  /** Without both variables nothing is fetched, written or deleted. */
  lemma MissingEnvAbortsFirst(env: Env, root: string, faults: Faults, encode: Rung -> RungOutcome, w: World)
    requires Falsy(env.tempVideoKey) || Falsy(env.s3OutputPath)
    ensures JobSpec(env, root, faults, encode, w).world == w
    ensures JobSpec(env, root, faults, encode, w).log == []
    ensures JobSpec(env, root, faults, encode, w).error.Some?
  {
  }

  /**
   * The steps run in the fixed order: whatever completed is a prefix of
   * fetch, convert, push, delete, and the job succeeded exactly when all four did.
   */
  lemma StepsInOrder(env: Env, root: string, faults: Faults, encode: Rung -> RungOutcome, w: World)
    ensures var res := JobSpec(env, root, faults, encode, w);
      && res.log <= AllSteps
      && (res.error.None? <==> res.log == AllSteps)
      && res.exitCode == 0
  {
  }

  /**
   * The source leaves the temporary bucket only at the last step, after the push
   * succeeded; every earlier failure leaves the temporary bucket untouched.
   */
  lemma SourceDeletedOnlyAfterPush(env: Env, root: string, faults: Faults, encode: Rung -> RungOutcome, w: World)
    ensures var res := JobSpec(env, root, faults, encode, w);
      && (res.world.temporary != w.temporary ==> Pushed in res.log && res.error.None?)
      && (res.error.Some? ==> res.world.temporary == w.temporary)
      && (res.error.None? ==> res.world.temporary == w.temporary - {env.tempVideoKey.value})
  {
  }

  /** The permanent bucket changes only by the push, and never loses an object. */
  lemma PermanentChangesOnlyByPush(env: Env, root: string, faults: Faults, encode: Rung -> RungOutcome, w: World)
    ensures var res := JobSpec(env, root, faults, encode, w);
      && (Pushed !in res.log ==> res.world.permanent == w.permanent)
      && w.permanent.Keys <= res.world.permanent.Keys
  {
  }

  /** A failed conversion (a rung that did not encode) publishes nothing. */
  lemma RungFailurePublishesNothing(env: Env, root: string, faults: Faults, encode: Rung -> RungOutcome, w: World)
    requires !AllEncoded(Ladder, encode)
    ensures var res := JobSpec(env, root, faults, encode, w);
      res.world.permanent == w.permanent && res.world.temporary == w.temporary && res.error.Some?
  {
  }

  /** Pushing a successfully converted folder publishes its master playlist ... */
  lemma PushPublishesMaster(ladder: seq<Rung>, d: Disk, input: string, out: string, encode: Rung -> RungOutcome, prefix: string)
    requires ConvertSpec(ladder, d, input, out, encode).1.Ok?
    ensures var up := UploadedObjects(ConvertSpec(ladder, d, input, out, encode).0.files, out, prefix);
      prefix + "/" + MasterName in up && up[prefix + "/" + MasterName] == MasterText(ladder)
  {
    var files := ConvertSpec(ladder, d, input, out, encode).0.files;
    ConvertWritesMaster(ladder, d, input, out, encode);
    assert MasterPath(out) in files;
    UploadedFile(files, out, prefix, MasterName);
  }

  /** ... and the playlist of every rung. */
  lemma PushPublishesRungs(ladder: seq<Rung>, d: Disk, input: string, out: string, encode: Rung -> RungOutcome, prefix: string)
    requires ConvertSpec(ladder, d, input, out, encode).1.Ok?
    ensures var up := UploadedObjects(ConvertSpec(ladder, d, input, out, encode).0.files, out, prefix);
      forall i :: 0 <= i < |ladder| ==> prefix + "/" + ladder[i].name + "/" + PlaylistName in up
  {
    forall i | 0 <= i < |ladder|
      ensures prefix + "/" + ladder[i].name + "/" + PlaylistName
              in UploadedObjects(ConvertSpec(ladder, d, input, out, encode).0.files, out, prefix)
    {
      PushPublishesRung(ladder, d, input, out, encode, prefix, i);
    }
  }

  lemma PushPublishesRung(ladder: seq<Rung>, d: Disk, input: string, out: string, encode: Rung -> RungOutcome,
                          prefix: string, i: nat)
    requires ConvertSpec(ladder, d, input, out, encode).1.Ok?
    requires i < |ladder|
    ensures prefix + "/" + ladder[i].name + "/" + PlaylistName
            in UploadedObjects(ConvertSpec(ladder, d, input, out, encode).0.files, out, prefix)
  {
    var files := ConvertSpec(ladder, d, input, out, encode).0.files;
    ConvertAllOrNothing(ladder, d, input, out, encode);
    assert encode(ladder[i]).Encoded?;
    ConvertWritesRungs(ladder, d, input, out, encode, i);
    UploadedPlaylist(files, out, prefix, ladder[i]);
  }

  /** A rung playlist on disk is published under the prefix. */
  lemma UploadedPlaylist(files: map<string, string>, out: string, prefix: string, r: Rung)
    requires RungPlaylistPath(out, r) in files
    ensures prefix + "/" + r.name + "/" + PlaylistName in UploadedObjects(files, out, prefix)
  {
    var rel := r.name + "/" + PlaylistName;
    assert RungPlaylistPath(out, r) == Join(out, rel);
    UploadedFile(files, out, prefix, rel);
    assert prefix + "/" + rel == prefix + "/" + r.name + "/" + PlaylistName;
  }

  /**
   * A completed job has published, under the output prefix, the master playlist of
   * the ladder and every rung's playlist: the folder pushed is the folder converted.
   */
  lemma CompletedJobPublishesStream(env: Env, root: string, faults: Faults, encode: Rung -> RungOutcome, w: World)
    requires JobSpec(env, root, faults, encode, w).error.None?
    ensures var res := JobSpec(env, root, faults, encode, w);
      var prefix := env.s3OutputPath.value;
      && prefix + "/" + MasterName in res.world.permanent
      && res.world.permanent[prefix + "/" + MasterName] == MasterText(Ladder)
      && forall i :: 0 <= i < |Ladder| ==> prefix + "/" + Ladder[i].name + "/" + PlaylistName in res.world.permanent
  {
    var key, prefix := env.tempVideoKey.value, env.s3OutputPath.value;
    var out := OutputDir(root);
    var disk1 := Disk(w.disk.files, w.disk.dirs + {InputDir(root)});
    var disk2 := Disk(disk1.files[DownloadPath(root, key) := w.temporary[key]], disk1.dirs + {out});
    var input := InputVideoPath(root, key);
    var (disk3, converted) := ConvertSpec(Ladder, disk2, input, out, encode);
    assert JobSpec(env, root, faults, encode, w) == PublishSpec(World(w.temporary, w.permanent, disk3), root, key, prefix, faults);
    PushPublishesMaster(Ladder, disk2, input, out, encode, prefix);
    PushPublishesRungs(Ladder, disk2, input, out, encode, prefix);
    var up := UploadedObjects(disk3.files, out, prefix);
    assert JobSpec(env, root, faults, encode, w).world.permanent == w.permanent + up;
  }

  /**
   * The queue may deliver the same upload twice. Once a job completed, a second job
   * for the same key finds no source, stops at the download and publishes nothing.
   */
  lemma SecondDeliveryIsHarmless(env: Env, root: string, faults: Faults, encode: Rung -> RungOutcome, w: World,
                                faults2: Faults, encode2: Rung -> RungOutcome)
    requires JobSpec(env, root, faults, encode, w).error.None?
    ensures var w1 := JobSpec(env, root, faults, encode, w).world;
      var res := JobSpec(env, root, faults2, encode2, w1);
      && res.error == Some(DownloadFailed)
      && res.world.permanent == w1.permanent
      && res.world.temporary == w1.temporary
  {
  }
}
