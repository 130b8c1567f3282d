/** The `/save-video` and `/save-audio` routes: stage the uploaded bytes in the
    local storage directory, upload the staged file to the bucket under its
    file name, then remove the staged file. The local directory and the bucket
    are maps from path or key to contents; whether the upload call succeeds is
    an input. */
module MediaStore {
  import opened Wrappers
  import opened MediaKey

  /** What a save route answers: `{'status': 'success'}` with 200, or the
      exception the upload raised, which nothing catches, so the route ends
      with the framework's 500 instead of a JSON body. */
  datatype SaveOutcome = Committed | UploadRaised
  {
    function Code(): (code: int)
      ensures code == 200 <==> Committed?
      ensures code == 200 || code == 500
    {
      if Committed? then 200 else 500
    }
  }

  /** The local storage directory and the one bucket, `virtualinterviewstorage`,
      that every object is written to. */
  datatype Storage = Storage(local: map<string, seq<byte>>, remote: map<string, seq<byte>>)

  /** The effect of one save: on success the bucket holds exactly the
      submitted bytes under the media name and no staged file is left at its
      path, even one that was there before; on failure the staged file holds
      the bytes and the bucket is untouched. Nothing else changes. */
  function SaveEffect(s: Storage, kind: MediaKind, now: Timestamp, data: seq<byte>, uploadOk: bool)
    : (r: (Storage, SaveOutcome))
    requires now.Valid()
    ensures var key, path := FileName(kind, now), LocalPath(FileName(kind, now));
      && (r.1 == Committed <==> uploadOk)
      && (uploadOk ==> key in r.0.remote && r.0.remote[key] == data && path !in r.0.local)
      && (!uploadOk ==> path in r.0.local && r.0.local[path] == data && r.0.remote == s.remote)
      && r.0.local - {path} == s.local - {path}
      && r.0.remote - {key} == s.remote - {key}
  {
    var key := FileName(kind, now);
    var path := LocalPath(key);
    var staged := s.local[path := data];
    if !uploadOk then (Storage(staged, s.remote), UploadRaised)
    else (Storage(staged - {path}, s.remote[key := staged[path]]), Committed)
  }

  /** Two saves of one kind within the same second share a key: the second
      overwrites the first in the bucket. */
  lemma SameSecondOverwrites(s: Storage, kind: MediaKind, now: Timestamp, first: seq<byte>, second: seq<byte>)
    requires now.Valid()
    ensures var s1 := SaveEffect(s, kind, now, first, true).0;
            var s2 := SaveEffect(s1, kind, now, second, true).0;
            s2.remote[FileName(kind, now)] == second
            && s2.remote - {FileName(kind, now)} == s.remote - {FileName(kind, now)}
  {
  }

  /** Retrying a failed save in the same second commits the new bytes and
      clears the staged file the failure left behind. */
  lemma RetryClearsStagedFile(s: Storage, kind: MediaKind, now: Timestamp, first: seq<byte>, retry: seq<byte>)
    requires now.Valid()
    ensures var s1 := SaveEffect(s, kind, now, first, false).0;
            var s2 := SaveEffect(s1, kind, now, retry, true).0;
            LocalPath(FileName(kind, now)) in s1.local
            && LocalPath(FileName(kind, now)) !in s2.local
            && s2.remote[FileName(kind, now)] == retry
            && s2.local - {LocalPath(FileName(kind, now))} == s.local - {LocalPath(FileName(kind, now))}
  {
  }

  /** Successful saves under different kinds or timestamps do not disturb each
      other: both sets of bytes end up in the bucket, and neither staged file
      remains. */
  lemma DistinctSavesBothCommit(s: Storage, k1: MediaKind, t1: Timestamp, d1: seq<byte>,
                                k2: MediaKind, t2: Timestamp, d2: seq<byte>)
    requires t1.Valid() && t2.Valid()
    requires k1 != k2 || t1 != t2
    ensures var s1 := SaveEffect(s, k1, t1, d1, true).0;
            var s2 := SaveEffect(s1, k2, t2, d2, true).0;
            s2.remote[FileName(k1, t1)] == d1 && s2.remote[FileName(k2, t2)] == d2
            && LocalPath(FileName(k1, t1)) !in s2.local && LocalPath(FileName(k2, t2)) !in s2.local
  {
    if FileName(k1, t1) == FileName(k2, t2) {
      FileNameInjective(k1, t1, k2, t2);
    }
    if LocalPath(FileName(k1, t1)) == LocalPath(FileName(k2, t2)) {
      LocalPathInjective(k1, t1, k2, t2);
    }
  }

  class MediaStore {
    /** The local storage directory: path to file contents. */
    var local: map<string, seq<byte>>
    /** The bucket: key to object contents. */
    var remote: map<string, seq<byte>>

    function State(): Storage
      reads this
    {
      Storage(local, remote)
    }

    constructor (local0: map<string, seq<byte>>, remote0: map<string, seq<byte>>)
      ensures local == local0 && remote == remote0
    {
      local := local0;
      remote := remote0;
    }

    /** One save route: name the file from the clock, write the bytes to the
        local path, upload the staged file under the name, remove it. An
        upload that raises ends the route before the removal. */
    method Save(kind: MediaKind, now: Timestamp, data: seq<byte>, uploadOk: bool)
      returns (outcome: SaveOutcome)
      requires now.Valid()
      modifies this
      ensures (State(), outcome) == SaveEffect(old(State()), kind, now, data, uploadOk)
    {
      var filename := FileName(kind, now);
      var localPath := LocalPath(filename);
      local := local[localPath := data];
      if !uploadOk {
        outcome := UploadRaised;
        return;
      }
      remote := remote[filename := local[localPath]];
      local := local - {localPath};
      outcome := Committed;
    }

    /** `save_video`. */
    method SaveVideo(now: Timestamp, data: seq<byte>, uploadOk: bool) returns (outcome: SaveOutcome)
      requires now.Valid()
      modifies this
      ensures (State(), outcome) == SaveEffect(old(State()), Video, now, data, uploadOk)
    {
      outcome := Save(Video, now, data, uploadOk);
    }

    /** `save_audio`. */
    method SaveAudio(now: Timestamp, data: seq<byte>, uploadOk: bool) returns (outcome: SaveOutcome)
      requires now.Valid()
      modifies this
      ensures (State(), outcome) == SaveEffect(old(State()), Audio, now, data, uploadOk)
    {
      outcome := Save(Audio, now, data, uploadOk);
    }
  }
}
