# 3DS soundboard: pads, samples and the file browser

This project is a Dafny model of a Nintendo 3DS homebrew soundboard. It has two parts.

The first part is the pad soundboard in `source/main.c`:
- `load_wav` reads a 16-bit PCM WAVE file into an `AudioSample`. It takes its fields from fixed header offsets: 22, 24 and 40, with the PCM data from 44.
- `play_sample` arms the sample's `ndspWaveBuf` and submits it to a DSP channel. It does this only when the buffer is DONE or FREE.
- `pointInButton` is the hit test for the on-screen button.
- `init_pad` fills in a `PadRect`.
- The per-frame pad loop sets each pad's pressed flag from the touch screen and triggers the pad's sample on the rising edge.

The second part is the file browser in `source/3ds-filebrowser.c`:
- `loadDirectory` fills a static table of 512 entries from a directory listing.
- `openFileBrowser` reacts to the keys pressed on each frame:
  - START quits;
  - B goes up one directory, or quits at the start path;
  - DOWN and UP move the selection with wrap-around;
  - A opens a directory, or returns the selected file's path.

The model is split into these modules:
- `Bytes`: little-endian fields, and what a C `fread` stores.
- `Keys`: the key bits.
- `Sample`: the `AudioSample` class and `LoadWav`.
- `Playback`: `PlaySample`, the driver calls it makes, and the queued state the submission leaves the buffer in.
- `Pads`: the pad table and the pad loop.
- `Paths`: the `snprintf` truncation, the path join and `strrchr`.
- `Directory`: what `loadDirectory` stores.
- `Navigation`: one frame of the browser as a pure step function `Tick`, and a whole session as `Run`.
- `Browser`: the `FileBrowser` class, with the static table and the two routines as methods proved against `LoadInto` and `Run`.

Things outside the model's reach are passed in as inputs:
- the file system, as a listing per directory, the set of paths `stat` reports as directories, and the contents of the WAVE file;
- the keys and the touch position of each frame;
- whether `linearAlloc` succeeds;
- the uninitialised `dataSize`.

The driver calls appear as a list of `DspCall` records, in the order they are made.

## Model

| member | source | states |
|---|---|---|
| Sample.LoadWav | source/main.c:56-77 | A missing file returns false and changes nothing. Otherwise the channel count and rate come from the header bytes whatever the allocation does; success equals allocation success; on success `data` is the payload read and `size` is the declared data size; on failure `data` is null and `size` is kept; the wave buffer is never touched. |
| Sample.ReadHeader | source/main.c:60-73 | What the `fread`s of `load_wav` leave: each field patched by the bytes read at its fixed offset, and the payload read from 44. The payload is never longer than the declared size. A file of at most 44 bytes gives an empty payload, and one of at most 40 bytes leaves the uninitialised `dataSize` as it was. For a file of at least 44 bytes, `HeaderFields` and `Payload` give every field. For a shorter file, each field holds whatever bytes were read over its old bytes (`Patch`, `PatchBytes`). For any length, `OnlyFixedOffsetsRead` shows that only the fixed offsets are consulted. |
| Sample.HeaderFields | source/main.c:60-65 | With a full header, the rate is the 32-bit field at 24 and the data size is the one at 40. The low 16 bits of `channels` are the field at 22 and the high 16 bits are what the `int` held before. When those were zero, `channels` equals the field. |
| Sample.Payload | source/main.c:67-75 | The payload is the file from offset 44, cut at the declared size. It has exactly the declared size iff the file is long enough. A short file silently yields a shorter payload. |
| Sample.OnlyFixedOffsetsRead | source/main.c:60-73 | Two equally long files, of any length, that agree on bytes 22-27 and from 40 on load identically. No tag, format, byte rate or bit depth is consulted. |
| Sample.WavFileRoundTrip | source/main.c:55-77 | Loading a canonical mono or stereo 16-bit PCM WAVE file built from (channels, rate, payload) gives back exactly those three values and the payload length, provided the upper 16 bits of the `channels` field held zero before the load (the field is an uninitialised local in the program's callers, so this is a real condition). |
| Bytes.ReadAt | source/main.c:60-73 | An `fread` at a fixed position returns at most the bytes asked for and never reads past the end. It comes up short only at the end of the file. With `ReadContinues`, the stream position after a short read is accounted for. |
| Bytes.Patch | source/main.c:61-65 | The value of a 4-byte object after `fread` stored some bytes over its low end. A read that stored nothing leaves the old value. `PatchBytes`, `PatchFull` and `PatchLow16` give the partial and full cases. |
| Bytes.PatchBytes | source/main.c:61-65 | After `fread` of k bytes into a 4-byte object, the object's bytes are the k bytes read followed by its untouched old high bytes. |
| Bytes.PatchFull | source/main.c:62-65 | A full 4-byte read replaces the whole object with the little-endian field. |
| Bytes.PatchLow16 | source/main.c:61 | A 2-byte read into the 4-byte `channels` sets its low 16 bits to the field and keeps its high 16 bits. |
| Bytes.ReadContinues | source/main.c:61-62 | Reading on from where a read stopped is reading at the next fixed offset, even after a short read. |
| Bytes.Int32 | source/main.c:86 | The value passed for the rate is the signed `int` whose two's-complement pattern is stored: it lies in the 32-bit signed range, is congruent to the pattern modulo 2^32, and is negative exactly when the top bit is set. |
| Playback.Enqueue | source/main.c:99 | The submission's effect on the descriptor: only the status can change, and it becomes QUEUED exactly when the buffer holds a frame. |
| Playback.Played | source/main.c:82-99 | A trigger changes only the wave buffer. With `BusyIgnored`, `AcceptedTrigger` and `PlayTwice`, a busy buffer is untouched, and an accepted one is rebuilt and queued. |
| Playback.PlayCalls | source/main.c:82-99 | A trigger makes six driver calls when the buffer is DONE or FREE, and none otherwise. `AcceptedTrigger` pins each of the six. |
| Playback.PlaySample | source/main.c:79-100 | The sample's new state is `Played` of the old one: untouched when busy, otherwise with the descriptor rebuilt and left as the submission leaves it. The calls made are `PlayCalls` of the old state on the given channel. |
| Playback.BusyIgnored | source/main.c:82-83 | A QUEUED or PLAYING buffer is left alone: no field changes and no driver call is made. |
| Playback.AcceptedTrigger | source/main.c:85-99 | An accepted trigger changes only the descriptor: it is zero except for the data pointer, looping off and `nsamples = size / 4`, and it is QUEUED when it holds a frame (FREE otherwise). Exactly six calls are made, in order: linear interpolation, the rate as the signed `int`, stereo PCM16, the unity left/right mix, the flush of the sample's data, and the submission of the descriptor while it is still FREE. All of them name that channel or the data cache. |
| Playback.ChannelCountIgnored | source/main.c:85-99 | The channel count read from the file has no effect on a trigger. |
| Playback.PlayTwice | source/main.c:82-99 | A second trigger straight after the first changes nothing more. After an accepted trigger of a sample with at least one frame, the second trigger makes no call, because the buffer is queued. For a sample under four bytes the buffer stays FREE, and the second trigger repeats the first one's calls. |
| Pads.PointInButton | source/main.c:21-24 | True iff the touch lies in 260..310 × 10..60, edges included. |
| Pads.InitPad | source/main.c:44-53 | The pad gets the given geometry, colours and sample with `pressed` false; every other pad is unchanged. |
| Pads.SettledUpTo | source/main.c:158-164 | After n turns, each of the first n pads equals the old pad with `pressed` set to whether it is touched; the rest are unchanged. |
| Pads.Touched | source/main.c:154-156 | A pad is touched only while the screen is held, with the touch inside its rectangle, edges included. `NoTouchNoCalls` builds on the first half. |
| Pads.Fires | source/main.c:158 | A pad fires on the rising edge: touched now and not pressed before. `HeldTouchFiresOnce` shows that a settled pad does not fire again on the same touch. |
| Pads.StatesAfter | source/main.c:152-164 | Each turn applies the pad's trigger to its sample's state as the earlier turns left it, and no other sample is touched. `StatesAfterMeans` gives its closed form. |
| Pads.PassCalls | source/main.c:152-160 | The calls of the first n turns, in pad order. `PassSilent`, `PassOnChannelZero`, `RefireIgnored` and `SharedSampleOnce` say when and where they are made. |
| Pads.PassCallsBound | source/main.c:152-160 | A pass makes at most six calls for each pad that fires. |
| Pads.UpdatePads | source/main.c:152-165 | After one pass, each pad's pressed flag equals whether it is touched, and nothing else about the pads changes. Each sample is in the state that the turns leave it in, taken one after another from its state before the pass. The calls are those of the triggers in index order, each made on the sample's state at that turn. |
| Pads.UpdatePad | source/main.c:153-164 | The loop body for pad i settles that pad and triggers its sample, in its current state, on a rising edge. It moves the pass state (pads, sample states and calls) from i turns to i + 1. |
| Pads.FiredAmongMeans | source/main.c:152-160 | A sample counts as fired iff some pad among the first n that plays it fires. |
| Pads.StatesAfterMeans | source/main.c:152-164 | However many pads share a sample, after n turns the sample is as one trigger leaves it if some pad playing it fired, and is unchanged otherwise. |
| Pads.RefireIgnored | source/main.c:158-160 | Within one pass, a firing pad whose sample an earlier pad already fired makes no call, provided the sample holds at least one frame. |
| Pads.SharedSampleOnce | source/main.c:152-165 | Two pads that share one sample and both fire on the same frame trigger it once. The six calls come from the first pad, when its buffer was DONE or FREE and it holds a frame. |
| Pads.PassOnChannelZero | source/main.c:160 | Every driver call of a pass that names a channel names channel 0, whichever pad fired. |
| Pads.PassSilent | source/main.c:154-160 | A pass makes no driver call iff every pad that fires has a sample whose buffer was neither DONE nor FREE when the pass began. |
| Pads.NoTouchNoCalls | source/main.c:154 | With the screen not held, a pass triggers nothing. |
| Pads.HeldTouchFiresOnce | source/main.c:158-164 | Triggering is edge-driven: a second pass with the same touch, over the settled pads, triggers nothing. |
| Paths.Truncate | source/3ds-filebrowser.c:26 | The stored text is a prefix of the source of at most n characters. It is the whole source when that fits, and exactly n characters otherwise. |
| Paths.Join | source/3ds-filebrowser.c:33 | The joined path is a prefix of `dir/name` of at most 511 characters, and is all of it when that fits. |
| Paths.LastSlash | source/3ds-filebrowser.c:67 | The result is -1 or the index of a slash, and no slash follows it. |
| Paths.LastSlashOfJoin | source/3ds-filebrowser.c:82 | In a path joined from `dir` and a slash-free name that fits, the last slash is the joining one and the path starts with `dir`. |
| Directory.IsDirFlag | source/3ds-filebrowser.c:29-43 | The flag is 0 or 1. It is 1 iff the entry type is DT_DIR, or the type is DT_UNKNOWN and `stat` of the joined path reports a directory. |
| Directory.ToEntry | source/3ds-filebrowser.c:26-43 | The slot filled from one `readdir` entry: the name truncated to at most 255 characters, a prefix of the original and the whole of it when it fits, plus the 0/1 directory flag of `IsDirFlag`. |
| Directory.Loaded | source/3ds-filebrowser.c:19-47 | Nothing is loaded when the directory does not open. Otherwise the first min(listing, 512) entries are loaded in `readdir` order, each with its name truncated to 255 characters and its directory flag. |
| Directory.LoadInto | source/3ds-filebrowser.c:16-47 | The table after loading holds the loaded entries first, and the slots beyond them keep their old contents. |
| Directory.ReloadIdempotent | source/3ds-filebrowser.c:19-47 | Loading the same directory twice leaves the table as loading it once. |
| Navigation.Enter | source/3ds-filebrowser.c:83-85 | Loading a directory and making it the current path with the selection at 0 gives a well-formed state: a full table, a count within it and a valid selection. |
| Navigation.Opened | source/3ds-filebrowser.c:52-55 | The state the loop starts in: the start directory loaded over the old table, with the selection at 0, well formed. |
| Navigation.PressB | source/3ds-filebrowser.c:62-74 | B keeps the state well formed whether it returns or goes on. `BackAtStartQuits` and `BackAscends` give its two cases. |
| Navigation.AfterB | source/3ds-filebrowser.c:61-74 | START, then B, keep the state well formed. `StartQuits` and `AfterBUnderStart` give the quit and the path bound. |
| Navigation.PressA | source/3ds-filebrowser.c:79-91 | A keeps the state well formed. `SelectEntry` gives the directory and file cases. |
| Navigation.Tick | source/3ds-filebrowser.c:58-91 | One frame keeps the table, count and selection well formed, whether it returns or goes on. `TickUnderStart` keeps the path under the start path. |
| Navigation.Run | source/3ds-filebrowser.c:57-106 | A whole session from a well-formed state ends in one, whether a handler returns or the frames run out. `RunUnderStart` bounds the final and returned paths. |
| Navigation.PressDown | source/3ds-filebrowser.c:76 | Only the selection changes: it moves to the next entry, wrapping from the last to the first. |
| Navigation.PressUp | source/3ds-filebrowser.c:77 | Only the selection changes: it moves to the previous entry, wrapping from the first to the last. |
| Navigation.StartQuits | source/3ds-filebrowser.c:61 | START returns NULL and changes nothing, whatever other keys are pressed. |
| Navigation.BackAtStartQuits | source/3ds-filebrowser.c:62-64 | B at the start path returns NULL and changes nothing. |
| Navigation.BackAscends | source/3ds-filebrowser.c:65-73 | B below the start path goes on. If a slash follows the first character, the new path is the old one cut at its last slash, and the directory is reloaded with the selection at 0. Otherwise nothing changes. |
| Navigation.SelectEntry | source/3ds-filebrowser.c:79-91 | A on a directory entry continues with the joined path, the selection at 0, and the table starting with that directory's loaded entries. A on any other entry returns the joined path and changes nothing. |
| Navigation.DownUpInverse | source/3ds-filebrowser.c:76-77 | UP undoes DOWN and DOWN undoes UP. |
| Navigation.JoinUnderStart | source/3ds-filebrowser.c:82 | Joining any name onto a path under the start path gives a path under the start path. |
| Navigation.AfterBUnderStart | source/3ds-filebrowser.c:62-74 | Going up with B never leaves the start path. |
| Navigation.TickUnderStart | source/3ds-filebrowser.c:61-91 | A frame keeps the current path under the start path, and any returned file path is under it too. |
| Navigation.RunUnderStart | source/3ds-filebrowser.c:57-106 | In a whole session, the final path and any returned file path are under the start path. |
| Navigation.DescendThenBack | source/3ds-filebrowser.c:62-85 | From a non-empty current path, opening a directory entry with A and then pressing B returns to the same directory, reloaded, with the selection at 0. This needs a slash-free name whose joined path fits. |
| Navigation.DescendFromEmptyStuck | source/3ds-filebrowser.c:62-85 | From the empty path, which only an empty start path allows, A into a directory gives `/name`. Its only slash is the first character, so a following B changes nothing. |
| Browser.FileBrowser.constructor | source/3ds-filebrowser.c:16-17 | The statics start with 512 zeroed entries and a count of 0. `chosenFile`, the function-scope static declared at line 50, starts empty. |
| Browser.FileBrowser.LoadDirectory | source/3ds-filebrowser.c:19-47 | The table becomes `LoadInto` of the old table, the count becomes the number loaded, and `chosenFile` is untouched. |
| Browser.FileBrowser.HandleBack | source/3ds-filebrowser.c:61-74 | START and B do what `AfterB` says: quitting returns NULL, and carrying on leaves table, count, path and selection as `AfterB` leaves them. |
| Browser.FileBrowser.HandleSelect | source/3ds-filebrowser.c:79-91 | A does what `PressA` says. `chosenFile` changes exactly when a file path is returned, and then holds that path. |
| Browser.FileBrowser.HandleMove | source/3ds-filebrowser.c:76-91 | DOWN, then UP, then A, each applied to the state the previous one left. |
| Browser.FileBrowser.Frame | source/3ds-filebrowser.c:58-91 | One pass of the loop body does what `Tick` says. |
| Browser.FileBrowser.OpenFileBrowser | source/3ds-filebrowser.c:49-107 | The result, the table and the count are those of `Run` from the opened start directory. `chosenFile` holds the returned path when there is one, and is unchanged otherwise. |

## Left out

- Rendering, console output and frame pacing. This covers the citro2d drawing of the pads, every `printf`, the browser listing and the buffer swaps. They produce no state the model reads.
- `main`'s bring-up and tear-down:
  - the service initialisation;
  - the two `load_wav` calls on fixed paths, with their error exits;
  - the two `init_pad` calls;
  - the START check that ends the pad loop.

  The routines these call are modelled on their own.
- Hardware input: `hidScanInput`, `hidKeysDown`, `hidKeysHeld` and `hidTouchRead` become parameters. These are the held and pressed key words and the touch position. `aptMainLoop` becomes the end of the `frames` sequence.
- File and memory services become inputs:
  - `fopen` and `fread` become the optional contents of the file;
  - `linearAlloc` becomes a success flag;
  - `opendir`, `readdir` and `stat` become a `FileSystem` value.

  `fclose` and `closedir` have no observable effect here.
- Sample.LoadWav: `data` holds only the bytes `fread` stored. The uninitialised tail of a buffer longer than the file is not modelled.
- `ndspChnWaveBufAdd` belongs to libctru, which is not part of this model. The model takes its effect on the descriptor to be this: a buffer with frames is marked QUEUED before the call returns, and an empty one is turned away untouched. The sequence number the driver assigns is not modelled.
- Later changes the driver makes while playing are not modelled. A queued buffer moves to PLAYING and then DONE asynchronously, so a status changes only through `play_sample` and the submission above.
- Playback.PlaySample: the rate reaches `ndspChnSetRate` as a `float`. The call records the exact signed `int`; float rounding of rates above 2^24 is not modelled.
- Sample.LoadWav: for a file that ends inside a header field, the model keeps the bytes `fread` delivered and leaves the field's other bytes as they were, as newlib does. The C standard leaves such a partially read element indeterminate.
- Pad coordinates are C `float`s but are modelled as integers. Every pad the program builds has integral corners.
- The `float mix[12]` array passed to `ndspChnSetMix` is represented by a single tag for "front left and right at 1, the rest 0".
- The numeric values of the key bits come from libctru's `hid.h`, which is not part of this model. `source/main.h` is not part of this model. Its declarations conflict with `source/main.c`, and two of its routines are defined in neither `source/main.c` nor `source/3ds-filebrowser.c`:
  - an `AudioSample` with `u8 channels`, `u32 sampleRate`, two wave buffers and `which`/`channel` fields;
  - `NUM_PADS` 8, and extern `mode`, `selectedPad` and `pads` globals;
  - a one-argument `play_sample` and an `assignSoundToPad`, the two undefined routines.

  The model follows `source/main.c`: one wave buffer per sample, no per-sample channel, and a 2-pad table.
- Pads.UpdatePads takes a ghost set of the samples the pads point at. It serves only as a frame for the samples the pass may change.
- Strings are NUL-free character sequences. A name or path with an embedded NUL is not modelled.
- In the C loop, `readdir` is called one more time when the table is already full, and that entry is discarded. This has no observable effect and is not modelled.
- Browser.FileBrowser.OpenFileBrowser: it requires a start path of at most 511 characters, because a longer one overflows `strcpy` into `currentPath`. It also requires that no frame presses DOWN or UP while the count is 0, because `% 0` is undefined behaviour in C. Both appear as preconditions rather than as modelled behaviour.
