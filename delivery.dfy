/**
 * Delivery of synthesized audio, three ways in turn: upload the audio URL as a voice
 * record, send it as a record segment, or download it to a temporary file, upload that
 * and remove the file again. Each step either succeeds or raises; which ones raise is
 * given by a `DeliveryEnv`.
 */
module Delivery {
  import opened JsString

  /** The files present on disk, by path. */
  class Disk {
    var files: set<string>

    constructor(initial: set<string>)
      ensures files == initial
    {
      files := initial;
    }
  }

  /** `temp/voicevox_${Date.now()}.wav`. */
  function TempPath(now: int): (p: string)
    ensures StartsWith(p, "temp/voicevox_")
  {
    "temp/voicevox_" + IntToString(now) + ".wav"
  }

  /** Requests made at different milliseconds use different temporary files. */
  lemma TempPathInjective(a: int, b: int)
    requires TempPath(a) == TempPath(b)
    ensures a == b
  {
    var sa := IntToString(a);
    var sb := IntToString(b);
    assert |sa| == |sb|;
    assert sa == TempPath(a)[14..14 + |sa|];
    assert sb == TempPath(b)[14..14 + |sb|];
    IntToStringInjective(a, b);
  }

  /** The ways a delivery can be attempted, in the order they are tried. */
  datatype Tier = UploadUrl | RecordSegment | UploadTempFile(path: string)

  /** How writing the temporary file ends: it succeeds, raises before the file exists
      (for instance the directory cannot be made), or raises once the file exists. */
  datatype WriteResult = Written | FailsBeforeCreate | FailsAfterCreate

  /** Which steps raise. `uploadUrlFails` and `recordFails` cover the upload or the
      reply that sends its result. */
  datatype DeliveryEnv = DeliveryEnv(
    uploadUrlFails: bool,
    recordFails: bool,
    downloadFails: bool,
    write: WriteResult,
    uploadFileFails: bool,
    unlinkFails: bool,
    now: int)

  /** The temporary-file tier is reached and the file is written. */
  predicate ReachesFileUpload(env: DeliveryEnv) {
    env.uploadUrlFails && env.recordFails && !env.downloadFails && env.write == Written
  }

  /** The tiers tried: the URL upload; the record segment when that fails; the upload of
      the temporary file when that fails too and the file is written. */
  function Attempts(env: DeliveryEnv): (ts: seq<Tier>)
    ensures ts != [] && ts[0] == UploadUrl
  {
    if !env.uploadUrlFails then [UploadUrl]
    else if !env.recordFails || !ReachesFileUpload(env) then [UploadUrl, RecordSegment]
    else [UploadUrl, RecordSegment, UploadTempFile(TempPath(env.now))]
  }

  /** Some tier got the audio out. */
  predicate Delivered(env: DeliveryEnv) {
    !env.uploadUrlFails || !env.recordFails || (ReachesFileUpload(env) && !env.uploadFileFails)
  }

  /** The files on disk after a delivery that started with `files`: the temporary file is
      left behind when its removal fails or when writing it failed once it existed, and
      is gone when it was uploaded and removed. */
  function DiskAfter(env: DeliveryEnv, files: set<string>): set<string> {
    var tmp := TempPath(env.now);
    if ReachesFileUpload(env) then (if env.unlinkFails then files + {tmp} else files - {tmp})
    else if env.uploadUrlFails && env.recordFails && !env.downloadFails && env.write == FailsAfterCreate
    then files + {tmp}
    else files
  }

  /** The delivery chain. `attempts` lists the tiers tried; `delivered` says whether the
      last of them got the audio out. A failure of the last tier escapes to the caller. */
  method Deliver(env: DeliveryEnv, disk: Disk) returns (attempts: seq<Tier>, delivered: bool)
    modifies disk
    ensures attempts != [] && attempts[0] == UploadUrl
    ensures |attempts| == 1 <==> !env.uploadUrlFails
    ensures |attempts| >= 2 ==> attempts[1] == RecordSegment
    ensures |attempts| == 3 <==> ReachesFileUpload(env)
    ensures |attempts| == 3 ==> attempts[2] == UploadTempFile(TempPath(env.now))
    ensures attempts == Attempts(env) && delivered == Delivered(env)
    ensures disk.files == DiskAfter(env, old(disk.files))
    ensures forall f :: f != TempPath(env.now) ==> (f in disk.files <==> f in old(disk.files))
    ensures ReachesFileUpload(env) ==>
      (TempPath(env.now) in disk.files <==> env.unlinkFails)
    ensures !ReachesFileUpload(env) ==>
      (TempPath(env.now) in disk.files <==>
        (TempPath(env.now) in old(disk.files) ||
         (env.uploadUrlFails && env.recordFails && !env.downloadFails && env.write == FailsAfterCreate)))
  {
    attempts := [UploadUrl];
    if !env.uploadUrlFails {
      return attempts, true;
    }
    attempts := attempts + [RecordSegment];
    if !env.recordFails {
      return attempts, true;
    }
    if env.downloadFails {
      return attempts, false;
    }
    var tmp := TempPath(env.now);
    if env.write == FailsBeforeCreate {
      return attempts, false;
    }
    disk.files := disk.files + {tmp};
    if env.write == FailsAfterCreate {
      return attempts, false;
    }
    attempts := attempts + [UploadTempFile(tmp)];
    delivered := !env.uploadFileFails;
    if !env.unlinkFails {
      disk.files := disk.files - {tmp};
    }
  }
}
