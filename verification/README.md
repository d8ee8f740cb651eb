# Verification models of xcua and cuad

Dafny models of the parts of this repository that drive a desktop for an agent, and proofs
about them. `dafny verify dfyconfig.toml` checks the whole project (Dafny 4.11).

## What is modelled

- **Typing and input under X11** (`Keysym`, `XServer`, `Requests`, `Sent`, `Input`). Text is
  compiled to keymap changes, key presses and releases, in chunks that fit the spare keycodes.
  The server is a keycode table with the keys and buttons down and a log of events, each with
  the keymap live at it. The log is decoded by the keyboard rules of section 5 ("Keyboards") of
  the X Window System Protocol, and the decoding is compared with the text. Any request to the
  server, any pause and any keymap change may fail. Releases and unbindings fail only with the
  connection. `Requests` says which messages a request sends, `Sent` what those mean on screen
  and keyboard, and the class `Input.Input` sends them.
- **Ownership of the Xvfb** (`XvfbWorld`, `XvfbSpec`, `XvfbRuns`, `XvfbOwners`, `XvfbAnswers`,
  `XvfbSignals`, `XvfbBlind`, `Xvfb`). Processes with recycled pids, displays that answer, are
  absent or silent, and the state dir. `up`, `release` and `down` are steps under the lock;
  between them processes die, halt, continue and are born.
  `XvfbSpec` says what each operation makes of the world, `XvfbRuns` proves what every run
  keeps, `XvfbOwners` who keeps a server, `XvfbAnswers` when `up` is refused and what it
  answers otherwise, `XvfbSignals` whom it signals, `XvfbBlind` what is lost without `/proc`,
  and the class `Xvfb.Machine` carries the operations out, polling loops included.
- **Reconnecting without replay** (`Backend`). Server generations, two connections, the session
  token and the `restarted` flag. The server may die and restart before every exchange, and
  every exchange is logged.
- **MP4 writing** (`IsoBoxes`, `AnnexB`, `Mp4`, `Mp4Reader`, `Mp4Header`, `Mp4Writer`,
  `Mp4File`). The writer with its 32-bit casts, and an independent reader after sections 4.2
  and 8.7.3 to 8.7.5 of ISO/IEC 14496-12 and Annex B of ITU-T H.264.
- **The zero-copy encoder's surfaces** (`ImportCache`, `Encoder`). The slot pool against a
  hardware queue that gives surfaces back when it likes, the import cache, what is in each
  surface queued and what reaches the file.
- **Recording by stills** (`Stills`, `Timeline`, `Verdicts`, `Record`, `Changes`). The tick
  loop over any clock, grabs and disk, against a ledger that says of each tick what came and
  what became of it; the reader's choice of a still; the run detector of both readers.
- **Arithmetic and geometry** (`Calendar`, `Geometry`, `Compositor`, `BoxFilter`, `Layout`,
  `Matching`, `Desktop`). The build stamp's calendar, stitching and cursor blending, the
  parallel box filter, layout planning over exact fractions, and the desktop hand-over between
  two threads.

Processes, clocks, disks, displays and devices are parameters, or steps that may fail at any
time. Durations are integers. Fractions are exact, rounded half away from zero where the code
rounds.

## Where the code does less than it says

- A keycode with a lone uppercase letter types the lowercase one (`Keysym.LoneUpperTypesLower`).
- Without `/proc`, `down` and the last `release` forget a server whose display is silent, or
  falls silent after SIGTERM, while it lives (`XvfbBlind.DownLoses`, `XvfbBlind.ReleaseLoses`),
  and `up --restart` starts a second one beside a server that falls silent and lives
  (`XvfbBlind.RestartLoses`). The module comment of `crates/xcua/src/xvfb.rs` takes a display
  that stops answering for a stopped server. Without such a step there is at most one server
  there, too (`XvfbBlind.KeepsTrackExactly`, `XvfbBlind.AtMostOneCareful`).
- An access unit refused for want of SPS/PPS leaves its bytes in the file, so that later
  offsets are off by their length (`Mp4Reader.WrittenExactly`, `Mp4File.OffsetOff`,
  `Mp4File.RefusedWrite`).
- The import cache is not dropped when a window's first frame repeats the last one, so the
  two-second bound on stale pixels does not hold then (`Encoder.BoundaryFrame`,
  `ImportCache.StaleByUse`).
- `SetLayout` is retried on a new server like a read, while the module comment of
  `crates/xcua/src/backend.rs` names screenshot, cursor, displays, status and ping alone
  (`Backend.InputIsNeverReplayed`).
- The box filter indexes out of the buffer for some factors over a side (`BoxFilter.FitsExactly`).
  With others its blocks run on into the picture's next rows (`BoxFilter.BlocksExactly`).
- A monitor to the right of the primary can be one pixel off its edge (`Layout.ExactAtPrimary`).
- A hotplug found by `SetLayout` itself leaves the pointer on an old desktop (`Desktop.InStepKept`).

## Model

| member | source | states |
|---|---|---|
| `Keysym.CharRoundTrip` | crates/xcua/src/keysym.rs:23-33 | A typeable character has a keysym, and the keysym stands for that character; control characters have none |
| `Keysym.KeyMap.Lookup` | crates/xcua/src/keysym.rs:161-183 | The column-by-column scan finds the key the search rule names: unshifted first, then shifted, then a lone lowercase key with Shift |
| `Keysym.KeyMap.SpareFrom` | crates/xcua/src/keysym.rs:187-195 | Exactly the keycodes with no symbol at all, highest first, each once |
| `Keysym.SpareMeans` | crates/xcua/src/keysym.rs:187-195 | A keycode is spare if and only if the map has it and every symbol of its row, of which there is one at least, is 0 |
| `Keysym.LookupDecodes` | crates/xcua/src/keysym.rs:161-183 | A key looked up decodes to its symbol, by the keyboard rules of section 5 of the X Window System Protocol, if and only if it is not the unshifted key of a lone uppercase letter |
| `Keysym.LoneUpperTypesLower` | crates/xcua/src/keysym.rs:161-183 | A map with a lone uppercase letter on which the looked-up key types the lowercase one |
| `Requests.TypedIsTheText` | crates/xcua/src/input.rs:490-521 | Typing yields the text, character for character, exactly when none of its symbols is looked up on a lone uppercase key |
| `Input.Input.TypeText` | crates/xcua/src/input.rs:490-521 | Decoding the key presses sent, each against the keymap live at it, gives the text; a control character is refused before anything is sent; with a Shift key and a spare keycode it only fails when something outside fails |
| `Input.Input.TypeOneChunk` | crates/xcua/src/input.rs:513-518 | A chunk is typed on the live bindings and every borrowed keycode is free again after it, on success and on failure |
| `Input.Input.TypeChunk` | crates/xcua/src/input.rs:523-542 | Each symbol of a chunk is one press and release of its bound key, under Shift where the binding says so; nothing new stays down |
| `Requests.ChunkEnd` | crates/xcua/src/input.rs:503-514 | The chunk is never empty and has no more unmapped symbols than there are spare keycodes |
| `Input.Input.Bind` | crates/xcua/src/input.rs:238-286 | Every symbol asked for gets a key of the live map or a spare keycode carrying it; otherwise the map is short of keycodes by the counts reported |
| `Requests.BoundDecodes` | crates/xcua/src/input.rs:238-286 | A bound key decodes, on the live map, to what its symbol would produce |
| `Input.Input.Unbind` | crates/xcua/src/input.rs:290-308 | All borrowed rows are blank again and none is remembered |
| `Input.Input.WithModifiers` | crates/xcua/src/input.rs:365-399 | The messages sent are the chord pressed in order, the action, and the chord released in reverse; on every path no key of it stays down |
| `Input.Input.DoClick` | crates/xcua/src/input.rs:407-421 | On success the click's messages are sent (`Sent.ClickDoes` says what they are); on every path no button stays down that was not, and it fails only when something outside fails |
| `Sent.ClickDoes` | crates/xcua/src/input.rs:407-421 | One motion to the point asked for, then the button pressed and released as often as asked, at least once; a coordinate off the screen becomes the border pixel of its own axis |
| `Input.Input.DoDrag` | crates/xcua/src/input.rs:423-443 | The button is down along the whole path and up again on every path out, failed moves included |
| `Sent.DragDoes` | crates/xcua/src/input.rs:423-443 | A motion to the start, the button down, 1 to 200 motions that stay within a pixel of the straight line and between its ends, the last one at the target, the button up |
| `Sent.DragArrives` | crates/xcua/src/input.rs:431-436 | The last motion of a drag is to its target, exactly when that is on the screen, whatever truncation does on the way |
| `Input.Input.DoScroll` | crates/xcua/src/input.rs:446-462 | On success the scroll's messages are sent (`Sent.ScrollDoes` says what they are); on every path no button stays down that was not, and it fails only when something outside fails |
| `Sent.ScrollDoes` | crates/xcua/src/input.rs:446-462 | One motion to the point, then as many detents of buttons 4 to 7 as asked, at most 50 each way, in the direction of the signs |
| `Sent.ChordUnder` | crates/xcua/src/input.rs:365-399 | A chord's keys go down in order, each the mapped key of its symbol or a spare keycode of its own, and up in reverse behind what is done under them |
| `Sent.RequestMeans` | crates/xcua/src/input.rs:178-181 | What a successful request sends is what was asked for, by the fields of the messages: each pointer coordinate is the one asked for, or the border pixel of its own axis |
| `Input.Input.ReleaseSince` | crates/xcua/src/input.rs:117-128 | What was pressed since is released and what was down before stays down |
| `Input.Input.Call` | crates/xcua/src/backend.rs:170-184 | Request atomicity: after any request but a bare press, with failures and cancellation at any step, what is down is a subset of what was down, nothing the request did not use was released, and the keymap is as before; a successful request sent what `Sent.RequestMeans` says it means, and a text request typed its text; a request fails only when something outside does or for one of six named reasons (`Requests.Refused`), and never succeeds on an empty screen, with an unknown or unbindable chord, a keycode off the map or a control character |
| `XvfbRuns.RunKeeps` | crates/xcua/src/xvfb.rs:471-1091 | Every state of every run of `up`, `release` and `down`, with processes dying, halting and recycling pids between them, keeps the ownership invariants |
| `XvfbRuns.AtMostOneServer` | crates/xcua/src/xvfb.rs:735-831 | With `/proc`, at most one Xvfb that xcua started is alive, and the pidfile and the env file name it |
| `XvfbRuns.SignalsReachOurs` | crates/xcua/src/xvfb.rs:950-1091 | Every signal ever sent, with or without `/proc`, reached a process xcua started, at a pid that may be signalled |
| `XvfbRuns.NeverABadPid` | crates/xcua/src/xvfb.rs:217-224 | Whatever the pidfile and the other files hold, no operation signals pid 0, pid 1 or a pid outside i32 |
| `XvfbOwners.RunOwned` | crates/xcua/src/xvfb.rs:471-1091 | In every state of every run, with and without `/proc`, the recorded server is `up`'s if `up` ever started or adopted it, and every live mcp that got it from `up` is in the users list |
| `XvfbOwners.ReleaseSparesUp` | crates/xcua/src/xvfb.rs:1032-1044 | With and without `/proc`, a server started or adopted by `up` survives every mcp that leaves; the recorded one is not even signalled |
| `XvfbOwners.ReleaseSparesUsers` | crates/xcua/src/xvfb.rs:1032-1044 | With and without `/proc`, a live mcp that got a server from `up` does not lose it to another mcp leaving |
| `XvfbRuns.LastUserStops` | crates/xcua/src/xvfb.rs:1032-1044 | When the last live user of a server `up` does not own leaves, no server lives and the state dir is cleared |
| `XvfbRuns.DownStops` | crates/xcua/src/xvfb.rs:1001-1028 | With `/proc`, `down` ends the server xcua started, silent or halted, and clears the state dir |
| `XvfbRuns.UpSparesRunning` | crates/xcua/src/xvfb.rs:790-806 | Without `--restart`, `up` never ends a server that is not halted |
| `XvfbRuns.UpServes` | crates/xcua/src/xvfb.rs:735-831 | What a successful `up` names is alive and recorded, the caller is a registered user, and the owner is `up` or a live mcp (a dead starter is replaced) |
| `XvfbAnswers.UpGives` | crates/xcua/src/xvfb.rs:735-831 | `up` is refused if and only if one of the listed conditions on files, display and environment holds; otherwise it answers with the recorded server, the foreign display or the server it started |
| `XvfbAnswers.UpSucceeds` | crates/xcua/src/xvfb.rs:768-831 | With `/proc`, in any run, a plain `up` beside a server that answers reuses and serves it, and one where none lives starts and serves a new one |
| `XvfbAnswers.UpSetsWm` | crates/xcua/src/xvfb.rs:735-831 | After an `up` that reused or started a server the window manager is the one asked for, and after a restart the one that ran |
| `XvfbRuns.AttachTouchesNothing` | crates/xcua/src/xvfb.rs:741-766 | Attaching to a display starts, stops and signals nothing, and records that display alone |
| `XvfbRuns.RestartKeepsWm` | crates/xcua/src/xvfb.rs:738-786 | A restart brings the window manager that ran back |
| `XvfbRuns.StopWmEnds` | crates/xcua/src/xvfb.rs:948-973 | The window manager is forgotten in any case; with `/proc` it has ended, without it is not signalled |
| `XvfbRuns.StopKeeps` | crates/xcua/src/xvfb.rs:1057-1091 | Stopping the recorded server keeps the invariants, and with `/proc` it is gone afterwards |
| `XvfbRuns.LiveIsOurs` | crates/xcua/src/xvfb.rs:471-482 | A display that answers with the recorded nonce is served by the very process the pidfile names |
| `XvfbRuns.GoneMeansNone` | crates/xcua/src/xvfb.rs:471-482 | With `/proc`, a check that finds neither an answer nor silence means no server of xcua lives |
| `XvfbBlind.DownLoses` | crates/xcua/src/xvfb.rs:1076-1091 | Without `/proc`, `down` forgets a server that still lives if and only if its display is silent, or falls silent after SIGTERM |
| `XvfbBlind.ReleaseLoses` | crates/xcua/src/xvfb.rs:1032-1044 | The leave of the last user forgets a live server under just the same condition |
| `XvfbBlind.RestartLoses` | crates/xcua/src/xvfb.rs:777-785 | Without `/proc`, `up --restart` forgets the server it stops while that lives on, if and only if the server falls silent after SIGTERM |
| `XvfbBlind.StepLoses` | crates/xcua/src/xvfb.rs:735-1091 | Without `/proc`, an operation from a state that knows every live server keeps that if and only if it is none of the three that lose one |
| `XvfbBlind.KeepsTrackExactly` | crates/xcua/src/xvfb.rs:735-1091 | Without `/proc`, every state of a run knows every live server if and only if no step of the run is one of those three |
| `XvfbBlind.AtMostOneCareful` | crates/xcua/src/xvfb.rs:735-1091 | Without `/proc`, in a run without such a step, at most one Xvfb that xcua started is alive, and the pidfile and the env file name it |
| `XvfbBlind.DownLeaks` | crates/xcua/src/xvfb.rs:1001-1028 | A run without `/proc` that ends with two live servers: `up`, the server halts, `down`, `up` |
| `XvfbBlind.RestartLeaks` | crates/xcua/src/xvfb.rs:777-785 | Another: `up`, then `up --restart` of a server that falls silent after SIGTERM and lives |
| `XvfbSignals.PidMeans` | crates/xcua/src/xvfb.rs:220-224 | A recorded pid counts if and only if it is neither 0 nor 1 nor one that turns negative |
| `XvfbSignals.UserMeans` | crates/xcua/src/xvfb.rs:510-533 | A user is alive if and only if its pid is and still bears the start time recorded, which without `/proc` only one recorded without does |
| `XvfbSignals.CheckMeans` | crates/xcua/src/xvfb.rs:471-482 | Live if and only if the recorded display answers with the recorded nonce, silent if and only if it keeps quiet; without a nonce the process stands in for it |
| `XvfbSignals.StopSends` | crates/xcua/src/xvfb.rs:1057-1074 | With `/proc` a stop sends SIGTERM to the Xvfb recorded and SIGKILL if and only if it is still there after 3 s; it has ended then, and no other process has |
| `XvfbSignals.StopSpares` | crates/xcua/src/xvfb.rs:1059-1063 | With `/proc` nothing is signalled that is not an Xvfb or not the one recorded |
| `XvfbSignals.BlindSends` | crates/xcua/src/xvfb.rs:1076-1091 | Without `/proc` SIGTERM goes to a living pid whose display answers with the nonce, and SIGKILL to none; it counts as stopped if and only if the display falls quiet within 5 s |
| `XvfbSignals.WmSends` | crates/xcua/src/xvfb.rs:950-973 | With `/proc` a window manager that is the one recorded gets SIGTERM, and SIGKILL if and only if it is still there after 2 s |
| `XvfbSignals.WmSpared` | crates/xcua/src/xvfb.rs:950-963 | It is only forgotten without `/proc`, and where it has gone |
| `Xvfb.Machine.LiveUsers` | crates/xcua/src/xvfb.rs:510-533 | The users whose recorded process is alive, and only their files are left |
| `Xvfb.Machine.End` | crates/xcua/src/xvfb.rs:1064-1074 | SIGTERM, polls, and SIGKILL only to the process still found after the last poll |
| `Xvfb.Machine.EndBlind` | crates/xcua/src/xvfb.rs:1076-1091 | Without `/proc`: SIGTERM to a pid whose display answers with the nonce, polls of the display, never SIGKILL |
| `Xvfb.Machine.EndWm` | crates/xcua/src/xvfb.rs:950-973 | The window manager is forgotten, and signalled only where its start time can be checked |
| `Xvfb.Machine.Up` | crates/xcua/src/xvfb.rs:735-831 | File by file, `up` does what its specification says in every branch |
| `Xvfb.Machine.Release` | crates/xcua/src/xvfb.rs:1032-1044 | File by file, a leaving mcp does what its specification says |
| `Xvfb.Machine.Down` | crates/xcua/src/xvfb.rs:1001-1028 | File by file, `down` does what its specification says |
| `Backend.XBackend.Call` | crates/xcua/src/backend.rs:474-507 | After every call a server the caller was not told of is flagged, a flagged restart answers the next input request before anything is sent, and what is said to the outside and answered is what the rules of recovery allow |
| `Backend.XBackend.Recover` | crates/xcua/src/backend.rs:482-500 | A dead connection: once both connections are open again a read is dispatched once more, input and recording never, and a new server is reported or flagged, and only then |
| `Backend.StepByStep` | crates/xcua/src/backend.rs:474-507 | Each exchange of a call follows from a failure before it: the request fails, its own connection is found dead, the hook brings a display back, both connections are opened |
| `Backend.ReadIsRetried` | crates/xcua/src/backend.rs:486-494 | A read whose connection died is sent again on the new connection, and its answer is that of the second attempt |
| `Backend.NotRetried` | crates/xcua/src/backend.rs:495-499 | No other request is: the answer tells of the same server if and only if that answered to the token of before, else of a new one |
| `Backend.FailsOnly` | crates/xcua/src/backend.rs:482-502 | A call fails only beside a connection that answers, on a hook or connection that cannot be had, or by the second attempt of a read |
| `Backend.XBackend.Reconnect` | crates/xcua/src/backend.rs:205-221 | New connections speak for one server whenever a token was made, also when the server dies and restarts between any two exchanges; a failed reconnect swaps nothing in |
| `Backend.Connect` | crates/xcua/src/backend.rs:94-113 | Opening establishes the invariant, whatever the server does between the two connections |
| `Backend.InputIsNeverReplayed` | crates/xcua/src/backend.rs:20-26 | In any run, every dispatch belongs to one call; of a request that moves the pointer, or presses or releases a button or key, it is the only one and went to the server generation its caller had last been told of; two are only made of five reads and a layout change |
| `Backend.RestartIsReported` | crates/xcua/src/backend.rs:20-26 | Two requests that touch pointer or keys and were carried out by different servers have a report of the restart between them |
| `AnnexB.SplitNals` | crates/cuad/src/jetson/mp4.rs:249-272 | The in-place scan computes the NAL units of the buffer |
| `AnnexB.SplitOfJoin` | crates/cuad/src/jetson/mp4.rs:249-272 | NAL units joined with 3- or 4-byte start codes (any number of leading and trailing zeros, Annex B of ITU-T H.264) split into those units |
| `AnnexB.JoinOfSplit` | crates/cuad/src/jetson/mp4.rs:249-272 | Of any buffer, every unit split off is a proper NAL unit, and joining the units again loses none |
| `IsoBoxes.ParsePrintAll` | crates/cuad/src/jetson/mp4.rs:234-240 | Boxes printed one after the other parse back, each with its length |
| `IsoBoxes.ParsePrintLarge` | crates/cuad/src/jetson/mp4.rs:42-44 | A box with a 64-bit size parses back |
| `IsoBoxes.Table32Words` | crates/cuad/src/jetson/mp4.rs:196-209 | A table of 32-bit numbers reads back |
| `IsoBoxes.Table64Words` | crates/cuad/src/jetson/mp4.rs:211-212 | A table of 64-bit numbers reads back |
| `IsoBoxes.UnpackPacked` | crates/cuad/src/jetson/mp4.rs:83-84 | Units behind 4-byte lengths unpack to the units |
| `Mp4Reader.IndexPath` | crates/cuad/src/jetson/mp4.rs:214-240 | The lengths of moov, trak, mdia, minf and stbl nest: a parser finds the sample table inside |
| `Mp4Reader.SetsIn` | crates/cuad/src/jetson/mp4.rs:160-187 | The parameter sets are read back from stsd, avc1 and avcC |
| `Mp4Reader.MediaAppend` | crates/cuad/src/jetson/mp4.rs:69-85 | A sample is its access unit without SPS, PPS and delimiters, in order |
| `Mp4Reader.WriteKeeps` | crates/cuad/src/jetson/mp4.rs:65-100 | A successful write leaves every sample, the new one included, where the sizes and offsets say, and the sync samples counted |
| `Mp4Reader.FailedWrite` | crates/cuad/src/jetson/mp4.rs:90-92 | A write fails exactly on a first sample no SPS precedes, and then leaves bytes the position does not count |
| `Mp4Reader.WrittenExactly` | crates/cuad/src/jetson/mp4.rs:65-100 | All writes of a run of access units from a new file succeed if and only if no unit with media comes before the first SPS; then everything fed is in the file |
| `Mp4Reader.AlignedRun` | crates/cuad/src/jetson/mp4.rs:65-100 | After any run of access units from a new file the position is the end of the file if and only if no unit with media came before the first SPS |
| `Mp4Reader.BehindByRefused` | crates/cuad/src/jetson/mp4.rs:84-92 | The position is behind the end of the file by exactly the bytes that refused writes left, which is nothing if and only if there were none |
| `Mp4File.OffsetOff` | crates/cuad/src/jetson/mp4.rs:89-96 | A sample written after refused ones lies as many bytes behind the offset in the index as those left |
| `Mp4File.RefusedWrite` | crates/cuad/src/jetson/mp4.rs:89-92 | A stream whose first slice comes before its SPS and PPS: the file is finished, and the only sample of its index is the refused slice |
| `Mp4Reader.FileTiles` | crates/cuad/src/jetson/mp4.rs:103-117 | File type, media data and index tile the finished file |
| `Mp4Reader.RunsIn` | crates/cuad/src/jetson/mp4.rs:192-195 | The sample-to-chunk box reads back as one run of one sample in each chunk |
| `Mp4Reader.OwnOffset` | crates/cuad/src/jetson/mp4.rs:192-212 | Located through chunk runs, sample sizes and chunk offsets together, each sample lies at its own chunk's offset |
| `Mp4Reader.EvenChunks` | crates/cuad/src/jetson/mp4.rs:192-212 | The reader does not presume the writer: of a table with n samples in every chunk it takes sample k from its chunk, behind the samples before it there |
| `Mp4Header.HeaderBack` | crates/cuad/src/jetson/mp4.rs:119-187 | The boxes beside the sample table read back as the picture size, in sample entry and track, the time scales and durations, one duration per sample, one sample entry, the matrix that changes nothing, and an enabled video track with its data in the file |
| `Mp4Header.TimesBack` | crates/cuad/src/jetson/mp4.rs:121-124 | By the time-to-sample box and the media's scale, sample k is decoded k frames after the start, with no rounding at any rate |
| `Mp4Reader.ReadBack` | crates/cuad/src/jetson/mp4.rs:103-117 | A finished file reads back as the parameter sets, the samples in order and the sync samples, each sample found through `stsc`, `stsz` and `co64` |
| `Mp4Reader.RoundTrip` | crates/cuad/src/jetson/mp4.rs:29-117 | For every run of access units in Annex B form with no media before the first SPS, the finished file reads back exactly their units other than SPS, PPS and delimiters, in order |
| `Mp4File.WriteFile` | crates/cuad/src/jetson/mp4.rs:29-117 | The writer itself, created, fed any access units and finished: all writes succeed if and only if no media comes before the first SPS, and then the file reads back as what was fed |
| `Mp4Writer.Writer.WriteAnnexB` | crates/cuad/src/jetson/mp4.rs:65-100 | One access unit is appended as the specification of a write says, failure included |
| `Mp4Writer.Writer.Finish` | crates/cuad/src/jetson/mp4.rs:103-117 | The index is appended and the media size patched; without SPS and PPS, or with a short SPS, it fails |
| `Mp4Writer.Writer.BuildMoov` | crates/cuad/src/jetson/mp4.rs:119-232 | Built box by box, the index is the printed tree of boxes |
| `ImportCache.ImportKeeps` | crates/cuad/src/jetson/mod.rs:317-332 | The cache stays free of duplicates and at most 4 long, and a hit is an import of the key asked for |
| `ImportCache.ImportRefines` | crates/cuad/src/jetson/mod.rs:317-332 | The cache is the last distinct buffers used since it was dropped, most recent first |
| `ImportCache.ImportCurrent` | crates/cuad/src/jetson/mod.rs:317-332 | With a cache of the current window, or at a window's first frame, the surface returned was imported in the current window |
| `Encoder.BoundaryFrame` | crates/cuad/src/jetson/mod.rs:261-296 | After a window's first frame all cached imports are of that window if and only if the frame was a fresh grab or the cache was empty |
| `ImportCache.StaleExactly` | crates/cuad/src/jetson/mod.rs:261-332 | Over any run of pushes, repeats and failures, a grab shows an import from before its window if and only if no grab at the window's first frame has dropped the imports and its buffer was cached before the window and ever since |
| `ImportCache.StaleByUse` | crates/cuad/src/jetson/mod.rs:261-332 | The same told by the pushes alone: no push since the window began grabbed its first frame, and before each of them the buffer was one of the last four distinct ones used since the cache was dropped |
| `Encoder.StaleHit` | crates/cuad/src/jetson/mod.rs:261-296 | A run of four pushes at 1 frame a second (grab, repeat, repeat, grab) whose last grab shows the import of frame 0 |
| `Encoder.ZeroCopyEncoder.Push` | crates/cuad/src/jetson/mod.rs:261-296 | A successful push appends exactly one surface: for a grab the import of its buffer with its cursor tried, for a repeat the frame before, at the time of its number; it fails only when something outside does, and on success leaves nothing to collect. Slots stay partitioned between free and held by the hardware, and the cache takes one step of the run model, on every failure path |
| `Encoder.RunGrows` | crates/cuad/src/jetson/mod.rs:261-296 | Over a run of pushes what was queued is what the sending pushes send, in order, each its own frame at its own time |
| `Encoder.OwnNow` | crates/cuad/src/jetson/mod.rs:264-272 | The frame of a sending push is its grab's import and cursor, or the frame before |
| `Encoder.PtsNear` | crates/cuad/src/jetson/mod.rs:279-287 | A frame's time is its number over the rate, cut to microseconds |
| `Encoder.ZeroCopyEncoder.ImportShot` | crates/cuad/src/jetson/mod.rs:317-332 | The cache is updated as specified and, in a window whose cache was dropped, the surface is of that window |
| `Encoder.ZeroCopyEncoder.FreeSlot` | crates/cuad/src/jetson/mod.rs:334-344 | The slot handed out is held by nobody else |
| `Encoder.ZeroCopyEncoder.DrainSlots` | crates/cuad/src/jetson/mod.rs:347-354 | Every surface given back becomes free once |
| `Encoder.ZeroCopyEncoder.Pull` | crates/cuad/src/jetson/mod.rs:360-384 | One access unit goes from the hardware to the end of the file; while none was lost on the way, the file holds those of the first pictures queued |
| `Encoder.ZeroCopyEncoder.Finish` | crates/cuad/src/jetson/mod.rs:299-308 | It succeeds if and only if nothing outside fails, and then the file holds the access units of all pictures ever queued, in order |
| `Record.RecordAll` | crates/xcua/src/record.rs:257-369 | For any clock, grabs and disk: the ledger of ticks is the one the script gives, dropped is missed deadlines plus failed grabs, the newest trouble is reported, and if the ticks are at increasing milliseconds, every grab not lost is what the reader shows at its time, within 4 levels per channel |
| `Timeline.LedgerAt` | crates/xcua/src/record.rs:286-338 | The entry of a tick is decided by its turn and those before: no grab if and only if the grab failed, on show, or lost to what refused it |
| `Verdicts.SameIsFourLevels` | crates/xcua/src/record.rs:526-528 | Two frames are the same picture, in either order, if and only if they have one size and no channel differs by 5 levels or more |
| `Verdicts.FateMeans` | crates/xcua/src/record.rs:286-338 | Each fate has its own cause, as an if and only if on the free space, the JPEG, the budget and the write, the first of them deciding |
| `Verdicts.SpendsOnStills` | crates/xcua/src/record.rs:325-332 | The last picture and the bytes change only by a moved frame that came on show |
| `Verdicts.BudgetKept` | crates/xcua/src/record.rs:318-324 | However long a recording runs, its stills stay within the byte budget, the unchecked first still apart |
| `Verdicts.EndsOnlyThen` | crates/xcua/src/record.rs:257-284 | A turn is the last if and only if it was stopped, woke at the limit or later, or lost its grab to the floor, the budget, a full disk or a missing directory |
| `Verdicts.FiledWhen` | crates/xcua/src/record.rs:260-269 | No tick runs before its deadline, and it is filed under the millisecond it ran in |
| `Verdicts.DropsWhatWentBy` | crates/xcua/src/record.rs:276-281 | Deadlines are dropped only when the loop is more than a period late, and then up to the last one not after the time |
| `Verdicts.NewestTrouble` | crates/xcua/src/record.rs:286-338 | What is reported is the trouble of the last tick whose grab did not come on show |
| `Verdicts.NoGrabsCount` | crates/xcua/src/record.rs:287-295 | Each failed grab is counted as dropped, once |
| `Timeline.Grid` | crates/xcua/src/record.rs:257-284 | The deadlines stay on the grid start + period x (1 + ticks + missed), and after a turn the loop is at most one period late |
| `Record.EndToEnd` | crates/xcua/src/record.rs:286-338 | However the reader lists the directory, the still it picks at a tick's time is within 4 levels per channel of the grab on show there |
| `Record.WrittenShown` | crates/xcua/src/record.rs:325-332 | A new still shows its frame, and what was shown at the earlier ticks stays shown |
| `Record.ClosingChangesNothing` | crates/xcua/src/record.rs:343-354 | At no time does the closing still change what is shown |
| `Record.Loop.DoTick` | crates/xcua/src/record.rs:286-338 | The tick enters the ledger as judged: on show, lost for its reason, or counted as a failed grab; the last picture and the bytes move with it |
| `Record.Loop.CatchUp` | crates/xcua/src/record.rs:276-281 | Deadlines that went by are counted as missed, and the next one is on the grid |
| `Record.Loop.TakeTurn` | crates/xcua/src/record.rs:259-282 | A turn ends the loop exactly for a stop, the limit or a fatal tick; else the loop's state moves on as the timeline says, with the grab judged and the missed deadlines counted |
| `Record.Loop.Run` | crates/xcua/src/record.rs:257-284 | The loop ends at the first turn that ends it, its ledger is that of the script's ticks up to there, dropped is missed deadlines plus failed grabs, and the stills show every grab on show |
| `Record.Loop.Finish` | crates/xcua/src/record.rs:343-369 | The closing still is a copy of the last at the end time, and an early stop's reason is what is reported |
| `Stills.ShowingShows` | crates/cua/src/stills.rs:83-86 | At a time in whole milliseconds the reader picks the last still at or before it |
| `Verdicts.ThousandMs` | crates/cua/src/stills.rs:45 | A still's time in seconds is its milliseconds over 1000 |
| `Stills.WindowShown` | crates/cua/src/stills.rs:151-153 | The stills compared between two times are exactly those on show at some time between them |
| `Changes.FindRuns` | crates/cua/src/stills.rs:161-186 | The runs are maximal groups, in order and apart, each told by start, end, count and true peak; every changed still is in one, and the counts add up |
| `Changes.ToldOf` | crates/cua/src/stills.rs:161-186 | A still is in a run if and only if it has one before it and changed by the threshold or more |
| `Changes.ToldTogether` | crates/cua/src/stills.rs:161-186 | Two neighbours are in one run if and only if both changed and no more than the gap lies between them |
| `Changes.ToldHow` | crates/cua/src/stills.rs:161-186 | A run lasts from its first still's time to its last one's, counts them all, and its peak is the greatest of their fractions |
| `Changes.MaximalUnique` | crates/cua/src/video.rs:235-262 | Maximal groups that share a frame are the same (with no gap rule for video frames) |
| `Changes.EveryMaximalListed` | crates/cua/src/stills.rs:161-186 | No maximal group of changed stills is left out |
| `Calendar.CivilValid` | crates/buildinfo/src/lib.rs:85-99 | Every integer day number gives a valid date of the proleptic Gregorian calendar |
| `Calendar.CivilNext` | crates/buildinfo/src/lib.rs:85-99 | One day later is the calendar's next day, across months, leap years, eras and the epoch |
| `Calendar.EpochDate` | crates/buildinfo/src/lib.rs:85-99 | Day 0 is 1970-01-01 |
| `Calendar.DayNumberOfCivil` | crates/buildinfo/src/lib.rs:85-99 | Counting the date's days back gives the day number it came from |
| `Calendar.StampIsEpoch` | crates/buildinfo/src/lib.rs:85-99 | The stamp is the epoch to the minute |
| `Calendar.NextDayStamp` | crates/buildinfo/src/lib.rs:85-99 | 86400 seconds later the stamp has the next date and the same time |
| `Geometry.Intersect` | crates/cuad/src/capture.rs:634-640 | Exactly the pixels in both rectangles, and none if there are none |
| `Geometry.ClampKeepsShared` | crates/cuad/src/capture.rs:730-744 | Clipping to a frame keeps exactly the frame's pixels of the rectangle: it is the intersection with the frame |
| `Geometry.InsideMeans` | crates/cuad/src/capture.rs:634-640 | A pixel is inside if and only if its distance from the corner is not negative and less than the width, and the height |
| `Geometry.IntersectMeans` | crates/cuad/src/capture.rs:634-640 | Two rectangles overlap if and only if each begins before the other ends both ways, and share the later begins and the earlier ends |
| `Geometry.ContainsMeans` | crates/cuad/src/capture.rs:621-632 | A rectangle of some pixels is contained if and only if all of its pixels are |
| `Geometry.Union` | crates/cuad/src/capture.rs:621-632 | The least rectangle around all displays |
| `Compositor.OverNeedsNoClamp` | crates/cuad/src/capture.rs:766-773 | For premultiplied pixels the blend needs no clamp, an opaque cursor pixel replaces and a clear one leaves what is below |
| `Compositor.BlendMeans` | crates/cuad/src/capture.rs:766-773 | Each colour is the cursor's own plus what its alpha leaves of the same colour below; a clear cursor pixel changes nothing, any other leaves an opaque pixel |
| `Compositor.CursorMeans` | crates/cuad/src/capture.rs:750-765 | The cursor image lies row by row from its corner, and there is nothing beside it |
| `Compositor.CompositeCursor` | crates/cuad/src/capture.rs:748-776 | Every pixel under the cursor is blended once, from its own value, and no other changes, for any position |
| `Compositor.Grab` | crates/cuad/src/capture.rs:311-368 | Each pixel of a region is that of the last display covering it, its cursor blended in |
| `Compositor.TopShows` | crates/cuad/src/capture.rs:311-368 | A pixel shows the last display placed over it, counted from that display's corner, with its cursor over it, and is blank where there is none |
| `Compositor.Shoot` | crates/cuad/src/capture.rs:311-317 | A region is clipped to the desktop and every pixel of it shot; one outside the desktop is refused |
| `Compositor.CropCommutes` | crates/cuad/src/capture.rs:311-368 | The image of a screenshot of any region, cursor included, is that part of the image of one of the whole desktop |
| `BoxFilter.DownscaleBox` | crates/xcua/src/pixels.rs:110-152 | For every number of threads and every order they run in, the chunked loops compute each output pixel as the rounded block mean |
| `BoxFilter.FilterInOrder` | crates/xcua/src/pixels.rs:121-149 | The chunks run in any order, each once: those run are done, the others untouched |
| `BoxFilter.FilterChunk` | crates/xcua/src/pixels.rs:121-149 | A thread writes exactly the pixels of its rows |
| `BoxFilter.FitsExactly` | crates/cuad/src/capture.rs:686-728 | The filter reads in bounds if and only if the last row of the last block is in the buffer |
| `BoxFilter.SmallFactorFits` | crates/cuad/src/capture.rs:686-728 | Every factor at most both sides stays in the buffer |
| `BoxFilter.BlocksExactly` | crates/cuad/src/capture.rs:686-728 | What is averaged are blocks of the picture if and only if the factor is at most both sides |
| `BoxFilter.NarrowPictureLeaves` | crates/cuad/src/capture.rs:668-677 | The factor 125 of a 10 x 2000 picture at a bound of 16 leaves the buffer |
| `BoxFilter.MeanBetween` | crates/xcua/src/record.rs:553-595 | Each channel lies between its block's least and greatest value |
| `BoxFilter.EachSampleOnce` | crates/xcua/src/record.rs:572-583 | In a block inside the picture's width each pixel counts once, in its own channel, and no other pixel counts |
| `BoxFilter.MeanNearest` | crates/xcua/src/record.rs:584-586 | Rounding is to the nearest level |
| `BoxFilter.SumsFit` | crates/xcua/src/record.rs:572-583 | For factors up to 4096 the 32-bit sums do not overflow |
| `BoxFilter.PlanFactor` | crates/xcua/src/record.rs:541-548 | The smallest factor that fits the longest side; at most 4096 for sides up to 65535 |
| `Layout.PlanLayout` | crates/cuad/src/capture.rs:529-609 | The planner's loops compute the specified plan or the first error |
| `Layout.PairingInjective` | crates/cuad/src/capture.rs:533-556 | With distinct connector keys no two displays share a monitor |
| `Matching.PairingMeans` | crates/cuad/src/capture.rs:533-556 | A display and a monitor are paired if and only if the monitor is the first with the display's key, or the display is the only one without a monitor of its key and the monitor the only one that no display claims |
| `Matching.AcceptedWhen` | crates/cuad/src/capture.rs:529-579 | A layout is accepted if and only if some display has a monitor and every paired monitor is not empty and, to 2 %, of its display's aspect; no display and no match are refused as such |
| `Matching.RefusedFor` | crates/cuad/src/capture.rs:565-579 | Otherwise the first display that is not fine is what the error tells of: its monitor if that is empty, else the display |
| `Layout.TransformedIsAspect` | crates/cuad/src/capture.rs:570-578 | The check on whole numbers is that the aspects differ by more than 2 % |
| `Matching.PlanMeans` | crates/cuad/src/capture.rs:580-609 | The primary is the first display on a monitor marked primary, without one the first that has a monitor; exactly the displays without a monitor are not placed |
| `Layout.PlacedNearExact` | crates/cuad/src/capture.rs:584-609 | Every coordinate of a placement is the scaled one to the nearest pixel, and no display is empty |
| `Layout.StackedWithinOne` | crates/cuad/src/capture.rs:586-609 | Monitors one above the other stay so within one pixel, unless the upper one is the primary |
| `Layout.PrimaryAtModeSize` | crates/cuad/src/capture.rs:586-597 | The primary display is placed at its mode size |
| `Layout.ScaleInvariant` | crates/cuad/src/capture.rs:529-609 | Multiplying every monitor rectangle by a positive integer changes neither the plan nor the error |
| `Layout.AbuttingWithinOne` | crates/cuad/src/capture.rs:586-609 | Monitors that abut stay abutting within one pixel |
| `Layout.ExactAtPrimary` | crates/cuad/src/capture.rs:586-609 | A monitor abutting the primary on the right is placed exactly at its edge if and only if the primary's left edge is not a negative half pixel with the right edge right of the origin |
| `Layout.GapAtPrimary` | crates/cuad/src/capture.rs:586-609 | A layout with a gap of one pixel at the primary's right edge |
| `Desktop.InStepKept` | crates/cuad/src/server.rs:522-536 | With a working device a request keeps pointer range and desktop in step if and only if it is not a `SetLayout` that finds a hotplug first and then moves the desktop |
| `Desktop.InputCoversDesktop` | crates/cuad/src/server.rs:437-443 | In runs without that, input is carried out on a pointer that covers the desktop |
| `Desktop.StaleStays` | crates/cuad/src/server.rs:437-443 | A stale pointer range stays until a hotplug or another layout |
| `Desktop.StaleAfterLayout` | crates/cuad/src/server.rs:226-233 | A layout change that finds a hotplug first leaves the pointer on the desktop of before |
| `Desktop.CaptureWorker.ChangeLayout` | crates/cuad/src/server.rs:226-233 | The hotplug's desktop is in the slot before the layout is applied |
| `Desktop.Daemon.Dispatch` | crates/cuad/src/server.rs:522-536 | Requests do what the specification of the hand-over says |
| `Desktop.GoesThrough` | crates/cuad/src/server.rs:522-536 | A request goes through if and only if it is not a layout change that is refused or leaves nothing, and no pointer has to be made that cannot be |
| `Desktop.PointerGoes` | crates/cuad/src/server.rs:437-443 | The pointer ends on the last rectangle it is told of: the one in the slot, the layout's, what a status finds |
| `Desktop.LookingFinds` | crates/cuad/src/server.rs:196-212 | Displays, screenshots and cursor queries take a hotplug up outside a recording and leave its desktop in the slot; other requests do not look |
| `Desktop.StatusFinds` | crates/cuad/src/server.rs:648-653 | The desktop after a status is what its look finds, and the slot is empty |
| `Desktop.LayoutLeaves` | crates/cuad/src/server.rs:226-233 | The desktop after a layout change: what the status at its end finds, else the layout's, else what was found before it was refused; a recording keeps it |

## Left out

- The state dir's O_EXCL fallback lock: two waiters can break the same stale lock; the `flock` path is an atomic step.
- A state dir shared by processes that see `/proc` and processes that do not (the module comment of `crates/xcua/src/xvfb.rs` mentions bwrap): one `haveProc` holds for a whole run.
- Processes that die inside a locked operation, file writes that fail there, and the twm rc file of `apply_wm`.
- The Xvfb's own probe loop (up to 10 s): one patient answer per display and operation.
- The order of `live_users`' answer, which only `status` shows.
- A pid taken over while its process is being stopped is modelled; one taken over and signalled within one poll is not.
- Concurrent calls into `XBackend`, poisoned locks and panics: calls come one at a time.
- Recording requests of `XBackend` beyond their kind: they are dispatched like reads, never retried.
- Other clients changing the keymap, held or locked modifiers other than those of the request, and keyboard groups: typed text is decoded from a state with no modifier down.
- MappingNotify waits, focus settling and sleeps: no-ops, or steps that may fail where the cancel flag is read.
- The wrap-around of coordinates beyond i32 and i16 in pointer motion.
- The flat keysym list: the map is modelled as rows of a common width; a map of one column comes back as equal symbols in two columns.
- Input.Input.Call: a bare key or button press is allowed to stay down, as the request asks for.
- Key names, combos' spelling, `connector_key`'s spelling and the text of messages.
- Mp4Reader.RoundTrip: holds where the format has room, for samples below 4 GiB, an index below 4 GiB and parameter sets below 64 KiB; the writer checks none of these.
- Mp4Header.HeaderBack: for rates and lengths whose time scale and durations fit 32 bits and sides below 65536; beyond that the casts cut them, which is modelled but not read back. The track header's own duration is not read back.
- A frame rate of zero, which the encoder's callers clamp away.
- The encoder's latency statistics and the bitstream itself; the cursor blend on NV12 is tried and may fail, its arithmetic is not modelled.
- Record.RecordAll: what is shown is stated for ticks at strictly increasing milliseconds (`Timeline.Increasing`); two ticks in one millisecond overwrite one still, which the code does not check. Frames are compared before JPEG, after downscaling and fitting to the recording's size.
- The first still against the byte budget, which the code does not check.
- Stills' times as f32: the reader's times are exact here; above some hours f32 cannot tell neighbouring milliseconds apart.
- Decoding, cropping and greying of stills: `Changes` starts from each frame's changed fraction.
- Compositor.Grab: for displays placed 1:1; a scaled display is resampled by a library.
- Displays with a cursor image shorter than its size: the missing pixels are skipped, as `crates/xcua/src/pixels.rs` does; `crates/cuad/src/capture.rs` would index out of bounds.
- The box filter's threads run whole chunks one after the other, in any order; interleavings within chunks are not modelled (each reads the source and writes its own rows only).
- f64 rounding in `plan_layout`: the scale and the aspect test are exact fractions.
- Desktop.InStepKept: a device that cannot be made takes the slot's rectangle with it; the statement is for runs where making it succeeds and no request times out.
- `thin` of the video reader, view coordinates, socket framing, D-Bus, AT-SPI, MCP plumbing and status reports: easy or plumbing.
