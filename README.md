# piano-rs, modelled in Dafny

piano-rs plays a piano in the terminal. Each key press is resolved to a note,
which is played from a preloaded sample and marked on an ASCII keyboard
diagram for a short time. Four control keys move two session parameters: the
octave offset and the note duration. This project models the logic of
`src/main.rs` and proves properties about it:

- `Controller`: the octave offset (`raw_sequence`, an `i16`) and the note
  duration (`note_duration`, a `u32`, in milliseconds) change under Right/Left
  and Up/Down, with the program's guards. The parameters are plain values.
  `HandleControlKey` performs the guarded in-place updates of the loop's
  `match`.
- `Session`: the main loop. The loop takes a sequence of polled events. Each
  key is resolved with the current offset. The guard `0 < position < 155`
  decides whether the note is played and then drawn. After that the control
  keys adjust the parameters, Esc leaves the loop and a failed poll panics.
  `MainLoop` keeps its parameters in local variables, as `main` does, and is
  proved equal to the recursive `Replay`.
- `Catalog`: the sample store. `Load` is `Player::new`, with its two nested
  loops over the 12 sound classes and octaves -1..7. A pair whose file cannot
  be read is skipped. `Player.Get` returns a fresh reader over the stored
  bytes. `Play` says what a play request does. `CheckMissingNotes` is the
  repository's asset test.
- `Palette`: the colour-name lookup in `draw`. An unknown name has no index.
- `Screen`: the terminal library. The model keeps only what the program relies
  on: a fixed grid with a back buffer that `print` writes, clipped at the
  edges, and a front buffer that `present` updates.
- `Layout`: `print_whitekeys` and `print_blackkeys` as loops over that grid,
  and the key columns they produce. There are 52 white keys and 36 black keys,
  88 in all.
- `Highlight`: the mark `draw` paints and the repaint its thread performs later.

Inputs the program gets from outside become parameters:

- the resolver `notes::match_note` (its source, `src/notes.rs`, is not part of
  this model) is a function-valued parameter;
- the file system is a function from a path to `Option` of bytes;
- the asset test's `Path::exists` is a predicate on paths;
- the user's input is the sequence of polled events.

Some behaviour of the program may be unexpected; the model follows the code:

- The start-up octave offset and note duration are parsed but never range-checked.
  `Replay` keeps the bounds only for runs that start inside them
  (`Session.ReplayKeepsBounds`). From a duration strictly between 0 and 50,
  Down takes the `u32` below zero. The model uses release-build wrap-around
  (`Controller.DurationEscapesOnlyNearBounds`).
- An unknown colour name is not rejected at start-up. It makes `draw` panic at
  the first played note, after that note has started to play
  (`Session.UnknownColorPanicsAtFirstNote`).
- The revert repaints the mark with a shade `▒` in the key's colour, not with
  the diagram's `█`/`██`. It also does not present the screen (see Findings).
- `Player::new` tries octave -1 for all twelve classes. The asset test expects
  it only for `a` and `as`, so ten of the 108 files the store reads are never
  reported as missing (`Catalog.ExpectedCount`).

## Model

| member | source | states |
|---|---|---|
| `Controller.WrapU32` | src/main.rs:247 | `u32` subtraction modulo 2^32: identity in range, plus 2^32 just below zero |
| `Controller.NextSequence` | src/main.rs:230-239 | only Right and Left change the offset, by at most one |
| `Controller.NextDuration` | src/main.rs:240-249 | only Up and Down change the duration; Up raises it by at most 50 |
| `Controller.Adjust` | src/main.rs:229-254 | keys other than the four control keys change nothing; in-bounds parameters stay in bounds |
| `Controller.HandleControlKey` | src/main.rs:229-254 | the guarded in-place updates give exactly `Adjust` of the old parameters |
| `Controller.OffsetStaysInRange` | src/main.rs:230-239 | an offset in 0..5 stays in 0..5 under every key |
| `Controller.OffsetMoves` | src/main.rs:230-239 | in 0..5: +1 iff Right below 5, -1 iff Left above 0, unchanged iff neither (Right at 5, Left at 0, any other key) |
| `Controller.DurationStaysInRange` | src/main.rs:240-249 | a multiple of 50 in 0..8000 stays a multiple of 50 in 0..8000 |
| `Controller.DurationMoves` | src/main.rs:240-249 | in bounds: +50 iff Up below 8000, -50 iff Down above 0, unchanged otherwise |
| `Controller.DurationEscapesOnlyNearBounds` | src/main.rs:240-249 | from 0..8000, Up exceeds 8000 iff 7950 < d < 8000; Down exceeds 8000 iff 0 < d < 50, where it wraps to d - 50 + 2^32 |
| `Palette.Position` | src/main.rs:141 | `None` iff absent; otherwise an in-range index holding the value, with no earlier occurrence |
| `Palette.ColorIndex` | src/main.rs:130-141 | succeeds iff the name is one of the eight; the index is below 8 and holds that name |
| `Palette.ColorOf` | src/main.rs:119-141 | a terminal colour is selected iff the name is one of the eight |
| `Palette.NamesDistinct` | src/main.rs:130-139 | the eight names are pairwise distinct |
| `Palette.NameAt` | src/main.rs:119-139 | the two lists are aligned: the name at each index is the name of the colour there |
| `Palette.IndexOfListedName` | src/main.rs:130-141 | the lookup of the i-th name yields i |
| `Palette.Ordinal` | src/main.rs:119-139 | each colour stands at the same index in both lists |
| `Palette.ColorRoundTrip` | src/main.rs:119-141 | a colour's name selects that colour |
| `Palette.UnknownNameFails` | src/main.rs:141 | a name that is no colour's name selects nothing |
| `Layout.GroupStep` | src/main.rs:101-113 | adding group x adds exactly the five columns 21x+9, +12, +18, +21, +24 |
| `Layout.PrintWhiteKeys` | src/main.rs:83-93 | rows 0..15, columns 0..156 hold `|` at multiples of 3 and `█` between; other cells unchanged |
| `Layout.PrintBlackKeys` | src/main.rs:96-115 | rows 0..8 hold `█` exactly at the black-key columns; other cells unchanged |
| `Layout.Keyboard` | src/main.rs:83-115 | the diagram covers exactly rows 0..15 by columns 0..156 |
| `Layout.ShowKeyboard` | src/main.rs:211-217 | after both passes and `present`, the screen shows the diagram (black over white) and nothing else changed |
| `Layout.GroupsEnumerate` | src/main.rs:101-113 | the first n groups are 5n increasing columns in 9..9+21n, exactly the group columns |
| `Layout.GroupsIncreasing` | src/main.rs:101-113 | the first n groups are 5n increasing columns in 9..9+21n |
| `Layout.GroupsMembers` | src/main.rs:101-113 | a column is among the first n groups iff `BlackBefore` admits it and it is not the lone key at 3 |
| `Layout.BlackColumnsEnumerate` | src/main.rs:99-113 | 36 increasing black-key columns, exactly those the black-key pass paints |
| `Layout.BlackKeysOnBorders` | src/main.rs:99-112 | every black column is a multiple of 3 between 3 and 150, a white-key border |
| `Layout.KeyCounts` | src/main.rs:84-113 | 52 white keys, 53 borders, 36 distinct black columns, 88 keys |
| `Layout.WhiteColumnsPartition` | src/main.rs:86-90 | a column in 0..156 is a border iff listed as one, otherwise part of white key c/3 |
| `Highlight.AsUsize` | src/main.rs:144 | `pos as usize`: the 64-bit value congruent to the position modulo 2^64, so the identity for non-negative positions |
| `Highlight.PaintMark` | src/main.rs:143-149 | exactly the mark's cells get the lit shade, then the screen shows the back buffer |
| `Highlight.Draw` | src/main.rs:118-149 | panics, painting nothing, iff the colour name is unknown; otherwise paints the mark in that colour and presents |
| `Highlight.Revert` | src/main.rs:150-158 | repaints exactly the mark's cells with the unlit shade; the screen is not presented |
| `Highlight.RevertPresented` | src/main.rs:150-158 | the same repaint, followed by `present` |
| `Highlight.FlashAsWritten` | src/main.rs:143-158 | after draw and the revert as written, the screen still shows the lit mark |
| `Highlight.FlashCorrected` | src/main.rs:143-158 | after draw and a presented revert, the screen shows the unlit mark |
| `Highlight.LitDiffersFromUnlit` | src/main.rs:143-157 | the lit mark equals what the revert paints iff the colour is the key's own: "white" on white keys, "black" on black keys |
| `Highlight.MarkOnKeyboard` | src/main.rs:143-146 | for a guarded note the mark lies at its column, on the last row of its key pass, inside the diagram |
| `Highlight.RevertLeavesShade` | src/main.rs:153-157 | the repaint never restores the diagram's own glyph |
| `Catalog.NatToString` | src/main.rs:36 | a non-empty string of decimal digits, starting with `0` only for zero |
| `Catalog.NatToStringValue` | src/main.rs:36 | the digits written denote the number, read independently by `DecimalValue` |
| `Catalog.IntToString` | src/main.rs:36 | Rust's `{}` on an integer: a minus sign iff negative, then digits without leading zeros that denote the magnitude (zero is exactly `0`) |
| `Catalog.SmallIntToString` | src/main.rs:33-36 | octaves -1..9 format as one digit, or as "-" and the digit |
| `Catalog.SoundClassesAreLettersAndDistinct` | src/main.rs:32 | the twelve class names are lowercase letters only and pairwise distinct |
| `Catalog.KeyShape` | src/main.rs:36 | a key is the name, "-" iff the octave is negative, then the octave's digit |
| `Catalog.SampleKey` | src/main.rs:36 | the key a sample is stored and looked up under: the name followed by Rust's `{}` of the octave (its shape is proved by `KeyParts`) |
| `Catalog.KeyParts` | src/main.rs:36 | a key is the sound's name, then `-` iff the octave is negative, then digits denoting the octave's magnitude |
| `Catalog.SamplePath` | src/main.rs:72 | the path is `assets/`, then the pair's key, then `.ogg` |
| `Catalog.ReadNote` | src/main.rs:71-79 | the file system's answer at the pair's path: its bytes, or `None` when it cannot be opened (the path's shape is proved by `SamplePath`) |
| `Catalog.Store` | src/main.rs:34-38 | a read file's bytes are stored under the pair's key; an unreadable pair leaves the store as it was |
| `Catalog.SplitKey` | src/main.rs:36 | a key splits back into its letters-only name and its octave |
| `Catalog.KeyInjective` | src/main.rs:32-36 | distinct catalogue pairs have distinct keys |
| `Catalog.StoreKeys` | src/main.rs:34-38 | reading one pair adds its key iff the file was read, and no other key |
| `Catalog.StoreKeepsOthers` | src/main.rs:34-38 | reading one pair leaves every other key's presence and bytes unchanged |
| `Catalog.Player.Get` | src/main.rs:48-51 | `Some` iff the key is stored; the reader holds the stored bytes, at position 0 |
| `Catalog.StoredKeysRead` | src/main.rs:32-38 | every stored key names a pair read so far |
| `Catalog.NotYetStored` | src/main.rs:32-38 | a pair's key is absent before the pair is read |
| `Catalog.StoredContents` | src/main.rs:32-38 | a pair read so far is stored iff its file was read, with the file's bytes |
| `Catalog.StoredHolds` | src/main.rs:28-46 | the complete store holds exactly the readable catalogue pairs |
| `Catalog.Load` | src/main.rs:28-46 | every key is sound ++ octave for a catalogue pair; a pair is present iff its file was read, with its bytes |
| `Catalog.GetAfterLoad` | src/main.rs:48-51 | after loading, `get` on a catalogue pair succeeds iff its file was read, over the file's bytes |
| `Catalog.KeysCanAlias` | src/main.rs:48-49 | `get("a-", 1)` and `get("a", -1)` reach the same sample |
| `Catalog.Play` | src/main.rs:53-69 | silent iff no sample; otherwise plays from the start, detached iff the duration is 0, else stopped after it |
| `Catalog.OctaveNames` | src/main.rs:281-287 | one name per octave checked |
| `Catalog.ExpectedFor` | src/main.rs:272-287 | nine expected files for "a" and "as", eight for the other classes |
| `Catalog.OctaveNamed` | src/main.rs:281-282 | octave s's name is among the first n octave names whenever s < n |
| `Catalog.ExpectedNames` | src/main.rs:272-287 | octaves 0..7 of every class are expected, and octave -1 of "a" and "as" |
| `Catalog.TestPathIsSamplePath` | src/main.rs:275-283 | the path the test checks for a pair is the path loading opens for it |
| `Catalog.LaterClassesHaveNoLowOctave` | src/main.rs:272-274 | no class after the first two is "a" or "as" |
| `Catalog.ExpectedBeforeLength` | src/main.rs:272-287 | the first i classes yield 8i names, plus one for each of "a" and "as" among them |
| `Catalog.MissingExactly` | src/main.rs:269-291 | a name is reported iff it is expected and its asset does not exist |
| `Catalog.MissingSnoc` | src/main.rs:284-286 | checking one more name appends it iff its asset does not exist |
| `Catalog.CheckMissingNotes` | src/main.rs:268-292 | the loop reports exactly the missing expected names, in order |
| `Catalog.CheckClass` | src/main.rs:274-287 | one class's pass appends exactly that class's missing names to the report |
| `Catalog.CheckOctaves` | src/main.rs:281-287 | the octave loop appends exactly the missing octave names, in order |
| `Catalog.ExpectedCount` | src/main.rs:272-287 | the test expects 98 files while loading reads 108 |
| `Catalog.ExpectedIncludes` | src/main.rs:272-287 | each class's expected files are among all expected files |
| `Catalog.CheckedPairPresent` | src/main.rs:268-292 | with nothing reported missing, the file of every pair the test covers exists |
| `Catalog.CheckedAssetsAreLoaded` | src/main.rs:268-292 | if nothing is reported missing and existing files are readable, every pair the test covers is loaded |
| `Session.Respond` | src/main.rs:224-228 | no calls iff the column fails the guard; otherwise the play with the current duration comes first; the draw follows iff the colour is known; the pass panics iff it is not, after the lone play |
| `Session.Step` | src/main.rs:220-258 | a failed poll panics with no calls; a non-key event changes nothing; a key's calls are `Respond`'s; a key stops the run iff it is Esc or the draw panics, and the ending is a panic iff the draw panicked; when the run continues the parameters become `Adjust`, which keeps the bounds |
| `Session.HandleEvent` | src/main.rs:220-258 | one loop pass gives exactly `Step`'s actions, next parameters or ending |
| `Session.HandleKey` | src/main.rs:223-254 | one key press gives exactly `Step`'s actions, next parameters or ending |
| `Session.MainLoop` | src/main.rs:219-259 | the loop's calls, final parameters and ending are exactly `Replay`'s |
| `Session.KeyPress` | src/main.rs:223-254 | play and draw happen iff 0 < position < 155, with the duration in force before the press; only Esc stops; otherwise the parameters become `Adjust` |
| `Session.ReplayKeepsBounds` | src/main.rs:229-249 | a run that starts in bounds ends in bounds |
| `Session.StepAlternates` | src/main.rs:224-228 | one event's calls alternate play/draw, and come in pairs unless it panicked |
| `Session.AlternatingConcat` | src/main.rs:224-228 | alternation, and an even number of calls, survive appending after complete pairs |
| `Session.ReplayAlternates` | src/main.rs:224-228 | a run's calls alternate play, draw; every drawn column passes the guard; only a panic leaves a lone play |
| `Session.ReplayStopsReading` | src/main.rs:250-252 | once a run has ended, later events change nothing |
| `Session.ReplayEnding` | src/main.rs:250-257 | a run exits only on Esc, and panics only on a failed poll or an unknown colour |
| `Session.UnknownColorPanicsAtFirstNote` | src/main.rs:225-227 | with an unknown colour nothing is drawn; at most one note plays, and then the run panics |

## Left out

- Audio output through rodio is not modelled: `play_once`, `detach`, `stop` and
  the silent keep-alive sink. Neither is the "Cannot play" panic. These are
  calls into a foreign library. `Catalog.Play` only states which of the three
  outcomes a request gets.
- The threads and sleeps that time the stop of a note and the revert of a
  mark are not modelled, and nor is the interleaving of several such threads.
  The revert is modelled as an operation performed at some later point.
- The mutex around the terminal is not modelled. Every paint is taken as one
  atomic step.
- Command-line parsing (clap) and the panics of `parse().unwrap()` on
  malformed arguments are not modelled. The parsed values are parameters.
- Reading files and testing whether a path exists are not modelled. Both are
  oracle parameters.
- `notes::match_note` is not modelled: `src/notes.rs` is not part of this
  model. So the resolver's own properties (a key's column and colour class do
  not depend on the offset, unmapped keys fall outside the guard, `q` at
  offset 2 is `a`, octave 2, column 64, white) are not stated.
- The terminal library's internals are reduced to a grid: the bold attribute,
  wide-character handling and the way `present` emits only changed cells.
  The terminal's size is a parameter.
- A debug build panics instead of wrapping when Down passes below zero. The
  model follows the release build.
- `read_note` unwraps `read_to_end`, so a file that opens but cannot be read
  aborts `Player::new`. The file-system oracle returns `Option`, so it cannot
  express that panic; `Catalog.ReadNote` covers opening and reading together.
- Highlight.FlashCorrected: it assumes the revert can take the terminal while
  `main` waits for input. With the mutex left out, it does not capture that
  `main` holds the terminal lock across the blocking poll.
- The blocking wait for the next event is not modelled. A run over a finite
  event sequence that neither exits nor panics ends as `Waiting`.

## Findings

| source | as written | input that shows it | evidently intended | confidence | as-written member | corrected member |
|---|---|---|---|---|---|---|
| src/main.rs:153-157 | the revert thread repaints the mark's cells in the back buffer but never calls `present`; also, `main` holds the terminal lock for the whole blocking `poll_event` at line 220, so the revert's lock at lines 154/156 waits for the next event | press one playable key, then press nothing for longer than the mark duration: the lit mark stays on screen until some later `present` | release the lock before polling, and present after the repaint, as the highlight does at line 149 | medium (depends on the terminal library's buffered `print`/`present`); not executed | `Highlight.FlashAsWritten` | `Highlight.FlashCorrected` |
