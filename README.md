# Interview session server: verified model of its core

`server3.py` is a small Flask service behind a remote interview. Beyond its
route wiring it does four things, modelled here in Dafny:

- **Device check** (`/check-devices`): `check_mic` records 129 chunks of
  1024 16-bit mono frames, decodes them as int16 samples and passes when
  `np.abs(samples).mean() > 0`. `check_camera` opens the camera and passes
  when one frame can be read. The route answers `success`/200 when both pass
  and `error`/400 with both verdicts otherwise (modules `Signal`, `Devices`).
- **Media names** (`save_video`, `save_audio`): every recording is named
  `interview_YYYYMMDD_HHMMSS.mp4` or `.wav` from the clock. That name is the
  file name in `local_storage/` and the key in the bucket (module `MediaKey`).
- **Stage, upload, remove**: the save routes write the bytes to the local
  path, upload that file to the bucket under the name, and then delete the
  local file. An upload failure raises, and nothing catches it, so the
  deletion is skipped (module `MediaStore`; the class `MediaStore` holds the
  directory and the bucket as maps).
- **Question draw** (`/conduct-interview`): `random.sample` of 6 from a
  fixed pool of 19 questions (module `Questions`).

Hardware, the clock, the network and the random generator are inputs:

- the microphone is `read(i)`, the chunk that the `i`-th `stream.read` returns;
- the camera is the pair of flags (opened, frame read);
- the clock is a `Timestamp` record;
- the outcome of `s3.upload_file` is a flag;
- `random.sample`'s choice is a sequence of positions.

Behaviour of the code worth noting:

- The code runs `int(RATE / CHUNK * RECORD_SECONDS)` = 129 reads. That is
  132096 samples, slightly less than three seconds; it is not a ceiling.
- A failed upload does not give a JSON `{"status": "error"}`. The exception
  escapes the route and the framework answers 500 (`SaveOutcome.UploadRaised`).
- The local write is not atomic, and a microphone that cannot be opened or
  read raises instead of reporting `false`. Both are listed under Left out.

## Model

| member | source | states |
|---|---|---|
| `Signal.ReadCount` | server3.py:110-129 | The loop bound `int(44100 / 1024 * 3)` is exactly 129. It is the largest number of 1024-frame chunks that fits in three seconds at 44100 Hz. |
| `Signal.FromBuffer` | server3.py:139 | `np.frombuffer(..., int16)` raises `ValueError` exactly when the byte count is odd. Otherwise it yields half as many samples as bytes. |
| `Signal.FromBufferThenEncode` | server3.py:139 | Decoding an even-length buffer loses nothing: re-encoding the little-endian samples gives the buffer back. |
| `Signal.EncodeThenFromBuffer` | server3.py:139 | Every int16 sample array is what its own bytes decode to, so decoding is a bijection between even-length buffers and sample arrays. |
| `Signal.Recording` | server3.py:126-131 | The `frames` list holds 129 chunks, the `i`-th being what the `i`-th read returned. |
| `Signal.Join` | server3.py:139 | `b''.join(frames)` gives 2048 bytes per chunk. |
| `Signal.JoinChunkAt` | server3.py:139 | The joined bytes keep every chunk whole and in read order: chunk `i` fills bytes `2048 * i` up to `2048 * (i + 1)`. |
| `Signal.DecodeSample` | server3.py:139 | A byte pair decodes as two's complement: the sample is negative exactly when the high byte's top bit is set, and it agrees with the low byte modulo 256. |
| `Signal.DecodePairs` | server3.py:139 | Decoding consecutive byte pairs gives one sample per two bytes. |
| `Signal.WrappedAbs` | server3.py:142 | `np.abs` on int16 returns the magnitude, except for -32768, which stays -32768. |
| `Signal.WrappedAbsSum` | server3.py:142 | The sum inside `.mean()` lies between -32768 and 32767 times the sample count. That is below 2^53 in magnitude for any recording here, so float64 accumulates it exactly. |
| `Signal.MicVerdict` | server3.py:142-145 | `np.abs(audio_data).mean() > 0`: the mean is positive exactly when the buffer is nonempty and the wrapped sum is positive. A passing buffer always has a nonzero sample. |
| `Signal.WrappedSumDeficit` | server3.py:142 | The sum of wrapped absolute values equals the true sum of magnitudes minus 65536 for each -32768 sample. |
| `Signal.MicVerdictClosedForm` | server3.py:142-145 | The mic passes exactly when the true magnitudes outweigh 65536 times the number of -32768 samples. |
| `Signal.SilenceFails` | server3.py:139-145 | An all-zero buffer never passes. |
| `Signal.VerdictWithoutMin` | server3.py:139-145 | With no -32768 sample, the mic passes if and only if some sample is nonzero. |
| `Signal.WrapDefeatsSignal` | server3.py:142 | A buffer of -32768 and 1 followed by silence has a signal and still fails. |
| `Signal.IntendedVerdictIffSignal` | server3.py:142 | A mean of true magnitudes passes if and only if some sample is nonzero. |
| `Signal.RecordedSamples` | server3.py:126-139 | The judged samples number 129 * 1024 = 132096, fewer than the 132300 of three seconds. Their bytes are exactly the recorded chunks joined in read order. |
| `Signal.CheckMic` | server3.py:108-145 | Reading the chunks one by one in a counted loop, the probe returns the verdict on the samples decoded from the first 129 reads. |
| `Devices.CheckCamera` | server3.py:147-153 | The camera passes if and only if it opened and its one frame read succeeded. |
| `Devices.DeviceResponse.Status` | server3.py:57-62 | The body's `status` is `success` exactly for the ready response, and `error` otherwise. |
| `Devices.DeviceResponse.Code` | server3.py:57-62 | The status code is 200 exactly for the ready response, and 400 otherwise. |
| `Devices.Respond` | server3.py:56-62 | The route answers `success`/200 exactly when both verdicts hold. Otherwise it answers `error`/400 and reports both verdicts unchanged. |
| `Devices.CheckDevices` | server3.py:53-62 | Both probes always run, mic first. The response is success exactly when the mic verdict and the camera's open and read flags all hold; otherwise it carries both verdicts. |
| `Devices.SilentMicFails` | server3.py:53-62 | A silent recording makes the route fail with `mic: false`, whatever the camera does. |
| `Devices.FramelessCameraFails` | server3.py:149-153 | A camera that opens but yields no frame makes the route fail with `camera: false`. |
| `MediaKey.Digits` | server3.py:74 | A zero-padded decimal field has exactly its width and consists of digits. |
| `MediaKey.DigitsThenValue` | server3.py:74 | Padding a value that fits the width loses nothing: the digits read back as the value. |
| `MediaKey.ValueThenDigits` | server3.py:74 | Every digit string is the padded form of its own value. |
| `MediaKey.Extension` | server3.py:75 | The extension is four characters starting with `.`, `.mp4` for video and `.wav` for audio (server3.py:94), and it reads back as its kind. |
| `MediaKey.Stamp` | server3.py:74 | `strftime("%Y%m%d_%H%M%S")` gives 15 characters: 8 date digits, `_`, then 6 time digits. |
| `MediaKey.StampThenParse` | server3.py:74 | A timestamp's stamp reads back as that timestamp. |
| `MediaKey.ParseThenStamp` | server3.py:74 | Every stamp that reads as a valid timestamp is that timestamp's stamp. |
| `MediaKey.FileName` | server3.py:74-75 | The name has 29 characters: the prefix `interview_`, 8 date digits, `_`, 6 time digits, then `.mp4` or `.wav` by kind. |
| `MediaKey.FileNameThenParse` | server3.py:74-75 | A media name parses back to its kind and timestamp. |
| `MediaKey.ParseThenFileName` | server3.py:74-75 | Only media names parse: a parsed string is the name of what it parses to. |
| `MediaKey.FileNameInjective` | server3.py:74-75 | Distinct kinds or distinct valid timestamps give distinct names. |
| `MediaKey.PathJoin` | server3.py:76 | `os.path.join` ends with the name. Unless the name is absolute, the path also starts with the directory. |
| `MediaKey.LocalPath` | server3.py:76 | A relative name is staged at `local_storage/` followed by the name. |
| `MediaKey.KeyIsBasename` | server3.py:76-82 | The staged path is `local_storage/` followed by the name, and the bucket key is that path's base name. |
| `MediaKey.LocalPathInjective` | server3.py:76 | Distinct media names are staged at distinct local paths. |
| `MediaStore.SaveOutcome.Code` | server3.py:82-87 | A committed save answers 200. A raised upload leaves the route by the uncaught exception, and the framework answers 500. |
| `MediaStore.SaveEffect` | server3.py:72-87 | On upload success, the bucket holds exactly the submitted bytes under the name, and no file is left at the local path, even one that was there before. On failure, the local file holds the bytes and the bucket is unchanged. The route succeeds only on upload success, and nothing else changes. |
| `MediaStore.SameSecondOverwrites` | server3.py:74-82 | Two successful same-kind saves in one second share a key: the second's bytes replace the first's. |
| `MediaStore.RetryClearsStagedFile` | server3.py:79-85 | A failed save leaves its staged file. A successful retry in the same second commits the new bytes and removes that file. |
| `MediaStore.DistinctSavesBothCommit` | server3.py:74-85 | Successful saves with different kinds or timestamps both end up in the bucket, and neither staged file remains. |
| `MediaStore.MediaStore.constructor` | server3.py:16-21 | The store starts from whatever the directory and the bucket hold. |
| `MediaStore.MediaStore.Save` | server3.py:72-106 | Save, upload and remove run as steps on the two maps. The new state and the answer are those `SaveEffect` gives. |
| `MediaStore.MediaStore.SaveVideo` | server3.py:72-87 | `save_video` is a save of kind video. |
| `MediaStore.MediaStore.SaveAudio` | server3.py:91-106 | `save_audio` is a save of kind audio. |
| `Questions.Sample` | server3.py:67 | `random.sample` raises `ValueError` exactly when `k` is negative or exceeds the population. Otherwise it returns `k` members of the population, pairwise distinct when the population is. |
| `Questions.PoolDistinct` | server3.py:24-44 | The pool holds 19 pairwise distinct questions. |
| `Questions.DrawIsPossible` | server3.py:67 | Six distinct positions below 19 exist, so the draw's precondition can be met. |
| `Questions.ConductInterview` | server3.py:65-68 | The route returns what `random.sample(questions, 6)` returns, which never raises: six distinct questions from the pool. |

## Left out

- Flask, CORS, `render_template`, the `/start-interview` page and the server start-up (server3.py:1-2, 12-13, 47-49, 155-156): HTTP plumbing, no logic. Media bytes arrive as a plain byte sequence instead of `request.files`.
- pyaudio and cv2 device handling (server3.py:117-136, 148-152) is hardware I/O. Opening, stopping and releasing devices is not modelled. In the code the camera is not released when `isOpened()` is false, and the audio stream is not closed if a read raises. A camera that fails to open does not raise: `check_camera` reports `False` (server3.py:149-150), as `Devices.CheckCamera` models.
- Devices.CheckDevices: does not model a microphone that raises. `p.open` (server3.py:120-124) and `stream.read` on an input overflow (server3.py:130) can raise. The exception then escapes `check_devices`, `check_camera` never runs, and `/check-devices` answers 500 with neither verdict. The model takes the microphone as a stream whose reads always succeed.
- Signal.FromBuffer: decodes little-endian. `np.frombuffer` with `np.int16` uses the host's native byte order, so on a big-endian host the pairs would be read the other way round.
- `datetime.now()` is an input `Timestamp`. Years before 1000 are excluded, because `%Y` padding for them depends on the platform.
- `random.sample`'s algorithm and its uniformity are not modelled. Only its contract is: distinct positions in range.
- The float64 mean of `.mean()` is replaced by the sign of the exact integer sum. Every partial sum is an integer below 2^53 in magnitude, so float64 computes it exactly. A positive sum divided by at most 132096 stays positive, and an empty mean is NaN, which fails like a zero sum.
- Failures of the local write (`video_data.save`) and of `os.remove`, partially written files, and the creation of the storage directory (server3.py:21) are not modelled. A failed upload is assumed to leave the bucket unchanged.
- Concurrent requests are not modelled: every route runs alone, one step after another.

## Findings

| source | as written | input that shows it | evidently intended | confidence | as-written member | corrected member |
|---|---|---|---|---|---|---|
| server3.py:142 | `np.abs` on an int16 array maps -32768 to -32768, so its mean can be 0 or negative although samples are nonzero | samples `[-32768, 1]`, then silence: wrapped sum -32767, so the mic fails | the mean magnitude is positive exactly when some sample is nonzero | high; follows from numpy's int16 semantics; not executed | `Signal.WrapDefeatsSignal` | `Signal.IntendedVerdictIffSignal` |

The device check (`Signal.CheckMic`, `Devices.CheckDevices`) keeps the verdict
as written. The corrected verdict, `Signal.IntendedVerdict`, is proved beside it.
