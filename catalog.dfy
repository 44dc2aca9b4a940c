/**
 * The sample store: at start-up every (sound class, octave) pair of the
 * fixed catalogue, 12 classes by octaves -1..7, is read from
 * `assets/{sound}{octave}.ogg`; the files that can be read are kept in a map
 * keyed by `{sound}{octave}`, the others are skipped. A lookup hands out a
 * fresh reader over a copy of the stored bytes. The file system is a
 * parameter: a function from a path to the file's bytes, or `None`.
 */
module Catalog {
  import opened Wrappers
  import opened Notes
  import Controller

  type Byte = x: int | 0 <= x < 256

  /** The file system as the program sees it: the bytes of each readable file. */
  type FileSystem = string -> Option<seq<Byte>>

  /** The twelve sound classes, in the order the store reads them. */
  const SoundClasses: seq<string> := ["a", "as", "b", "c", "cs", "d", "ds", "e", "f", "fs", "g", "gs"]

  const LowestSequence: int := -1
  /** One past the highest octave the store reads. */
  const SequenceLimit: int := 8

  // Decimal formatting, as Rust's `{}` writes an integer

  function DigitChar(d: nat): (c: char)
    requires d < 10
    ensures '0' <= c <= '9'
  {
    ('0' as int + d) as char
  }

  /** A non-empty string of decimal digits. */
  predicate Digits(s: string)
  {
    |s| >= 1 && forall k :: 0 <= k < |s| ==> '0' <= s[k] <= '9'
  }

  /** The number a string of decimal digits denotes, read left to right. */
  function DecimalValue(s: string): int
  {
    if s == [] then 0 else 10 * DecimalValue(s[..|s| - 1]) + (s[|s| - 1] as int - '0' as int)
  }

  /** The decimal digits of `n`, with a leading zero only for zero itself. */
  function NatToString(n: nat): (s: string)
    ensures Digits(s) && (s[0] == '0' <==> n == 0)
  {
    if n < 10 then [DigitChar(n)] else NatToString(n / 10) + [DigitChar(n % 10)]
  }

  /** The digits `NatToString` writes denote the number written. */
  lemma {:induction false} NatToStringValue(n: nat)
    ensures DecimalValue(NatToString(n)) == n
  {
    if n >= 10 {
      NatToStringValue(n / 10);
      var s := NatToString(n);
      assert s[..|s| - 1] == NatToString(n / 10);
    }
  }

  /** Rust's `{}` on an integer: a minus sign for negative values, then the magnitude's digits without leading zeros. */
  function IntToString(i: int): (s: string)
    ensures |s| >= 1 && (s[0] == '-' <==> i < 0)
    ensures i == 0 ==> s == "0"
    ensures var digits := if i < 0 then s[1..] else s;
      Digits(digits) && (digits[0] == '0' <==> i == 0) && DecimalValue(digits) == if i < 0 then -i else i
  {
    if i < 0 then
      NatToStringValue(-i);
      assert ("-" + NatToString(-i))[1..] == NatToString(-i);
      "-" + NatToString(-i)
    else
      NatToStringValue(i);
      NatToString(i)
  }

  /** The key a sample is stored under. */
  function SampleKey(sound: string, sequence: int): (k: string)
  {
    sound + IntToString(sequence)
  }

  /** A key is the sound's name, then "-" iff the octave is negative, then the digits of the octave's magnitude. */
  lemma KeyParts(sound: string, sequence: int)
    ensures var k := SampleKey(sound, sequence);
      && |k| > |sound| && k[..|sound|] == sound
      && (k[|sound|] == '-' <==> sequence < 0)
      && var digits := if sequence < 0 then k[|sound| + 1..] else k[|sound|..];
        Digits(digits) && DecimalValue(digits) == if sequence < 0 then -sequence else sequence
  {
    var k := SampleKey(sound, sequence);
    assert k[|sound|..] == IntToString(sequence);
  }

  /** The path `read_note` opens for a pair. */
  function SamplePath(sound: string, sequence: int): (path: string)
    ensures |path| == 11 + |SampleKey(sound, sequence)|
    ensures path[..7] == "assets/" && path[|path| - 4..] == ".ogg"
    ensures path[7..|path| - 4] == SampleKey(sound, sequence)
  {
    "assets/" + SampleKey(sound, sequence) + ".ogg"
  }

  /** `read_note`: the bytes of the pair's file, or `None` when it cannot be opened. */
  function ReadNote(files: FileSystem, sound: string, sequence: int): Option<seq<Byte>>
  {
    files(SamplePath(sound, sequence))
  }

  /** The pair (class j, octave s) lies in the catalogue. */
  predicate InCatalogue(j: int, s: int)
  {
    0 <= j < |SoundClasses| && LowestSequence <= s < SequenceLimit
  }

  predicate Letters(w: string)
  {
    forall i :: 0 <= i < |w| ==> 'a' <= w[i] <= 'z'
  }

  lemma SoundClassesAreLettersAndDistinct()
    ensures forall j :: 0 <= j < |SoundClasses| ==> Letters(SoundClasses[j])
    ensures forall j, k :: 0 <= j < k < |SoundClasses| ==> SoundClasses[j] != SoundClasses[k]
  {
  }

  /** One-digit and minus-one octaves format as the digit, or as "-" and the digit. */
  lemma SmallIntToString(s: int)
    requires -10 < s < 10
    ensures IntToString(s) == if s < 0 then ['-', DigitChar(-s)] else [DigitChar(s)]
  {
  }

  /** The shape of a key: the name, then "-" for a negative octave, then the octave's one digit. */
  lemma KeyShape(w: string, s: int)
    requires Letters(w) && -10 < s < 10
    ensures var k := SampleKey(w, s);
      && |k| == |w| + (if s < 0 then 2 else 1)
      && k[|k| - 1] == DigitChar(if s < 0 then -s else s)
      && (s < 0 <==> |k| >= 2 && k[|k| - 2] == '-')
      && k[..|w|] == w
  {
    SmallIntToString(s);
    var k := SampleKey(w, s);
    if s >= 0 && |k| >= 2 {
      assert k[|k| - 2] == w[|w| - 1];
    }
  }

  /** A letters-only name followed by a one-digit octave (or minus one) can be split back into the two. */
  lemma SplitKey(w1: string, s1: int, w2: string, s2: int)
    requires Letters(w1) && Letters(w2)
    requires -10 < s1 < 10 && -10 < s2 < 10
    requires SampleKey(w1, s1) == SampleKey(w2, s2)
    ensures w1 == w2 && s1 == s2
  {
    KeyShape(w1, s1);
    KeyShape(w2, s2);
    var a1 := if s1 < 0 then -s1 else s1;
    var a2 := if s2 < 0 then -s2 else s2;
    assert DigitChar(a1) == DigitChar(a2);
  }

  /** Distinct catalogue pairs have distinct keys, so no sample overwrites another. */
  lemma KeyInjective(j1: int, s1: int, j2: int, s2: int)
    requires InCatalogue(j1, s1) && InCatalogue(j2, s2)
    requires SampleKey(SoundClasses[j1], s1) == SampleKey(SoundClasses[j2], s2)
    ensures j1 == j2 && s1 == s2
  {
    SoundClassesAreLettersAndDistinct();
    SplitKey(SoundClasses[j1], s1, SoundClasses[j2], s2);
  }

  /** A reader over its own copy of a sample's bytes, positioned at the start. */
  datatype Stream = Stream(data: seq<Byte>, cursor: nat)

  datatype Player = Player(samples: map<string, seq<Byte>>)
  {
    /** `get`: a fresh reader over the sample stored under `note` and `sequence`, or `None`. */
    function Get(note: string, sequence: I16): (r: Option<Stream>)
      ensures r.Some? <==> SampleKey(note, sequence) in samples
      ensures r.Some? ==> r.value.data == samples[SampleKey(note, sequence)] && r.value.cursor == 0
    {
      var key := SampleKey(note, sequence);
      if key in samples then Some(Stream(samples[key], 0)) else None
    }
  }

  /** Pair (j, s) is read before pair (i, q) in the store's order: class by class, octave by octave. */
  predicate ReadBefore(j: int, s: int, i: int, q: int)
  {
    (0 <= j < i && LowestSequence <= s < SequenceLimit) || (j == i && LowestSequence <= s < q)
  }

  /** The store after reading pair (note, sequence) into `m`: the pair is added when its file can be read. */
  function Store(files: FileSystem, m: map<string, seq<Byte>>, note: string, sequence: int): (r: map<string, seq<Byte>>)
    ensures ReadNote(files, note, sequence).Some? ==> SampleKey(note, sequence) in r && r[SampleKey(note, sequence)] == ReadNote(files, note, sequence).value
    ensures ReadNote(files, note, sequence).None? ==> r == m
  {
    match ReadNote(files, note, sequence)
    case Some(sample) => m[SampleKey(note, sequence) := sample]
    case None => m
  }

  /** Reading one pair adds at most that pair's key. */
  lemma StoreKeys(files: FileSystem, m: map<string, seq<Byte>>, note: string, sequence: int, k: string)
    ensures k in Store(files, m, note, sequence) <==> k in m || (k == SampleKey(note, sequence) && ReadNote(files, note, sequence).Some?)
  {
  }

  /** Reading one pair leaves every other entry as it was. */
  lemma StoreKeepsOthers(files: FileSystem, m: map<string, seq<Byte>>, note: string, sequence: int, k: string)
    requires k != SampleKey(note, sequence)
    ensures k in Store(files, m, note, sequence) <==> k in m
    ensures k in m ==> Store(files, m, note, sequence)[k] == m[k]
  {
  }

  /** The store once every pair read before (i, q) has been read. */
  function StoredBefore(files: FileSystem, i: nat, q: int): map<string, seq<Byte>>
    requires i < |SoundClasses| && LowestSequence <= q <= SequenceLimit
    decreases i, q - LowestSequence
  {
    if q > LowestSequence then Store(files, StoredBefore(files, i, q - 1), SoundClasses[i], q - 1)
    else if i == 0 then map[]
    else StoredBefore(files, i - 1, SequenceLimit)
  }

  /** The store once every pair has been read. */
  function Stored(files: FileSystem): map<string, seq<Byte>>
  {
    StoredBefore(files, |SoundClasses| - 1, SequenceLimit)
  }

  /** Every key in the store names a pair read so far. */
  lemma {:induction false} StoredKeysRead(files: FileSystem, i: nat, q: int, k: string)
    requires i < |SoundClasses| && LowestSequence <= q <= SequenceLimit
    requires k in StoredBefore(files, i, q)
    ensures exists j, s :: ReadBefore(j, s, i, q) && 0 <= j < |SoundClasses| && k == SampleKey(SoundClasses[j], s)
    decreases i, q - LowestSequence
  {
    if q > LowestSequence {
      var m := StoredBefore(files, i, q - 1);
      assert StoredBefore(files, i, q) == Store(files, m, SoundClasses[i], q - 1);
      StoreKeys(files, m, SoundClasses[i], q - 1, k);
      if k in m {
        StoredKeysRead(files, i, q - 1, k);
        var j, s :| ReadBefore(j, s, i, q - 1) && 0 <= j < |SoundClasses| && k == SampleKey(SoundClasses[j], s);
        assert ReadBefore(j, s, i, q);
      } else {
        assert k == SampleKey(SoundClasses[i], q - 1);
        assert ReadBefore(i, q - 1, i, q);
      }
    } else if i > 0 {
      assert StoredBefore(files, i, q) == StoredBefore(files, i - 1, SequenceLimit);
      StoredKeysRead(files, i - 1, SequenceLimit, k);
      var j, s :| ReadBefore(j, s, i - 1, SequenceLimit) && 0 <= j < |SoundClasses| && k == SampleKey(SoundClasses[j], s);
      assert ReadBefore(j, s, i, q);
    }
  }

  /** A pair's key is not in the store before the pair is read. */
  lemma NotYetStored(files: FileSystem, i: nat, q: int)
    requires i < |SoundClasses| && LowestSequence <= q < SequenceLimit
    ensures SampleKey(SoundClasses[i], q) !in StoredBefore(files, i, q)
  {
    var key := SampleKey(SoundClasses[i], q);
    if key in StoredBefore(files, i, q) {
      StoredKeysRead(files, i, q, key);
      var j, s :| ReadBefore(j, s, i, q) && key == SampleKey(SoundClasses[j], s);
      KeyInjective(j, s, i, q);
    }
  }

  /** A pair read so far is in the store exactly when its file could be read, with the file's bytes. */
  lemma {:induction false} StoredContents(files: FileSystem, i: nat, q: int, j: int, s: int)
    requires i < |SoundClasses| && LowestSequence <= q <= SequenceLimit
    requires ReadBefore(j, s, i, q)
    ensures var m := StoredBefore(files, i, q); var key := SampleKey(SoundClasses[j], s);
      && (key in m <==> ReadNote(files, SoundClasses[j], s).Some?)
      && (key in m ==> m[key] == ReadNote(files, SoundClasses[j], s).value)
    decreases i, q - LowestSequence
  {
    if q > LowestSequence {
      var prev := StoredBefore(files, i, q - 1);
      assert StoredBefore(files, i, q) == Store(files, prev, SoundClasses[i], q - 1);
      if j == i && s == q - 1 {
        NotYetStored(files, i, q - 1);
      } else {
        var key := SampleKey(SoundClasses[j], s);
        StoredContents(files, i, q - 1, j, s);
        if key == SampleKey(SoundClasses[i], q - 1) {
          KeyInjective(j, s, i, q - 1);
        }
        if key != SampleKey(SoundClasses[i], q - 1) {
          StoreKeepsOthers(files, prev, SoundClasses[i], q - 1, key);
        }
      }
    } else {
      assert StoredBefore(files, i, q) == StoredBefore(files, i - 1, SequenceLimit);
      StoredContents(files, i - 1, SequenceLimit, j, s);
    }
  }

  /** What `Player::new` leaves in the store for a given file system. */
  ghost predicate Holds(p: Player, files: FileSystem)
  {
    && (forall k :: k in p.samples ==> exists j, s :: InCatalogue(j, s) && k == SampleKey(SoundClasses[j], s))
    && (forall j, s :: InCatalogue(j, s) ==>
          && (SampleKey(SoundClasses[j], s) in p.samples <==> ReadNote(files, SoundClasses[j], s).Some?)
          && (SampleKey(SoundClasses[j], s) in p.samples ==>
                p.samples[SampleKey(SoundClasses[j], s)] == ReadNote(files, SoundClasses[j], s).value))
  }

  /** The complete store holds exactly the readable catalogue pairs. */
  lemma StoredHolds(files: FileSystem)
    ensures Holds(Player(Stored(files)), files)
  {
    var m := Stored(files);
    forall k | k in m
      ensures exists j, s :: InCatalogue(j, s) && k == SampleKey(SoundClasses[j], s)
    {
      StoredKeysRead(files, |SoundClasses| - 1, SequenceLimit, k);
      var j, s :| ReadBefore(j, s, |SoundClasses| - 1, SequenceLimit) && k == SampleKey(SoundClasses[j], s);
      assert InCatalogue(j, s);
    }
    forall j, s | InCatalogue(j, s)
      ensures var key := SampleKey(SoundClasses[j], s);
        && (key in m <==> ReadNote(files, SoundClasses[j], s).Some?)
        && (key in m ==> m[key] == ReadNote(files, SoundClasses[j], s).value)
    {
      StoredContents(files, |SoundClasses| - 1, SequenceLimit, j, s);
    }
  }

  /**
   * `Player::new`: reads every catalogue pair in order and stores the ones
   * that can be read. Every key has the form sound ++ octave for a catalogue
   * pair; a pair is present exactly when its file was read, with the file's
   * bytes.
   */
  method Load(files: FileSystem) returns (p: Player)
    ensures p.samples == Stored(files)
    ensures Holds(p, files)
  {
    var samples: map<string, seq<Byte>> := map[];
    for i := 0 to |SoundClasses|
      invariant i == 0 ==> samples == map[]
      invariant i > 0 ==> samples == StoredBefore(files, i - 1, SequenceLimit)
    {
      assert samples == StoredBefore(files, i, LowestSequence);
      var note := SoundClasses[i];
      for sequence := LowestSequence to SequenceLimit
        invariant samples == StoredBefore(files, i, sequence)
      {
        ghost var before := samples;
        var sample := ReadNote(files, note, sequence);
        if sample.Some? {
          samples := samples[SampleKey(note, sequence) := sample.value];
        }
        assert samples == Store(files, before, note, sequence);
        assert StoredBefore(files, i, sequence + 1) == Store(files, before, note, sequence);
      }
    }
    assert samples == Stored(files);
    p := Player(samples);
    StoredHolds(files);
  }

  /** After loading, `get` for a catalogue pair finds a reader exactly when the pair's file was read, over the file's bytes. */
  lemma GetAfterLoad(p: Player, files: FileSystem, j: int, s: I16)
    requires Holds(p, files) && InCatalogue(j, s)
    ensures p.Get(SoundClasses[j], s).Some? <==> ReadNote(files, SoundClasses[j], s).Some?
    ensures p.Get(SoundClasses[j], s).Some? ==>
      p.Get(SoundClasses[j], s).value == Stream(ReadNote(files, SoundClasses[j], s).value, 0)
  {
  }

  /**
   * `get` takes any name and formats the key from it, so a name that is not a
   * sound class can reach another pair's sample: "a-" with octave 1 finds the
   * sample of "a" at octave -1.
   */
  lemma KeysCanAlias(p: Player)
    ensures p.Get("a-", 1) == p.Get("a", -1)
  {
    assert SampleKey("a-", 1) == SampleKey("a", -1);
  }

  /** What a play request does: nothing when no sample is stored; otherwise the sample plays from its start, detached, or until `delay` milliseconds have passed. */
  datatype Playback = Silent | Detached(stream: Stream) | StopAfter(stream: Stream, delay: nat)

  /**
   * `play`: a missing sample is a silent no-op; a duration of 0 lets the
   * sample play to its end; any other duration stops it after that many
   * milliseconds.
   */
  function Play(p: Player, note: string, sequence: I16, duration: Controller.U32): (r: Playback)
    ensures r.Silent? <==> SampleKey(note, sequence) !in p.samples
    ensures !r.Silent? ==> r.stream == Stream(p.samples[SampleKey(note, sequence)], 0)
    ensures r.Detached? <==> SampleKey(note, sequence) in p.samples && duration == 0
    ensures r.StopAfter? ==> r.delay == duration > 0
  {
    match p.Get(note, sequence)
    case None => Silent
    case Some(stream) => if duration == 0 then Detached(stream) else StopAfter(stream, duration)
  }

  // The asset check: the expected file names and the ones that do not exist

  /** The names the asset check builds for octaves 0..n-1 of one sound class, in order. */
  function OctaveNames(note: string, n: nat): (names: seq<string>)
    ensures |names| == n
  {
    if n == 0 then [] else OctaveNames(note, n - 1) + [note + NatToString(n - 1) + ".ogg"]
  }

  /** The name "-1" checked first for "a" and "as", and for no other class. */
  function LowName(note: string): seq<string>
  {
    if note == "a" || note == "as" then [note + "-1.ogg"] else []
  }

  /** The files the asset check expects for one sound class: "-1" for "a" and "as" only, then octaves 0..7. */
  function ExpectedFor(note: string): (names: seq<string>)
    ensures |names| == if note == "a" || note == "as" then 9 else 8
  {
    LowName(note) + OctaveNames(note, SequenceLimit)
  }

  /** Octave s's name is among the first n octave names whenever s < n. */
  lemma {:induction false} OctaveNamed(note: string, n: nat, s: nat)
    requires s < n
    ensures note + NatToString(s) + ".ogg" in OctaveNames(note, n)
  {
    if s < n - 1 {
      OctaveNamed(note, n - 1, s);
    }
  }

  /** The asset check expects octaves 0..7 of every class, and octave -1 of "a" and "as". */
  lemma ExpectedNames(note: string, s: int)
    requires 0 <= s < SequenceLimit || (s == -1 && (note == "a" || note == "as"))
    ensures (if s == -1 then note + "-1.ogg" else note + NatToString(s) + ".ogg") in ExpectedFor(note)
  {
    if s >= 0 {
      OctaveNamed(note, SequenceLimit, s);
    }
  }

  /** The path the asset check tests for a pair is the path `read_note` opens for it. */
  lemma TestPathIsSamplePath(note: string, s: int)
    requires -1 <= s
    ensures "assets/" + (if s == -1 then note + "-1.ogg" else note + NatToString(s) + ".ogg") == SamplePath(note, s)
  {
    var digits := IntToString(s);
    assert s == -1 ==> digits == "-1";
    assert SamplePath(note, s) == "assets/" + (note + digits + ".ogg");
  }

  /** The expected files of the first `i` sound classes, in the check's order. */
  function ExpectedBefore(i: nat): seq<string>
    requires i <= |SoundClasses|
  {
    if i == 0 then [] else ExpectedBefore(i - 1) + ExpectedFor(SoundClasses[i - 1])
  }

  function ExpectedFiles(): seq<string>
  {
    ExpectedBefore(|SoundClasses|)
  }

  /** The names in `names` whose asset does not exist, in order. */
  function Missing(names: seq<string>, present: string -> bool): seq<string>
  {
    if names == [] then []
    else
      var last := names[|names| - 1];
      Missing(names[..|names| - 1], present) + (if present("assets/" + last) then [] else [last])
  }

  /** A name is reported exactly when it is expected and its asset does not exist. */
  lemma {:induction false} MissingExactly(names: seq<string>, present: string -> bool, x: string)
    ensures x in Missing(names, present) <==> x in names && !present("assets/" + x)
  {
    if names != [] {
      var init, last := names[..|names| - 1], names[|names| - 1];
      MissingExactly(init, present, x);
      assert names == init + [last];
    }
  }

  /** Checking one more name adds it to the report exactly when its asset does not exist. */
  lemma MissingSnoc(names: seq<string>, x: string, present: string -> bool)
    ensures Missing(names + [x], present) == Missing(names, present) + (if present("assets/" + x) then [] else [x])
  {
    assert (names + [x])[..|names|] == names;
  }

  /**
   * `check_missing_notes`: collects, in order, the expected asset names whose
   * file does not exist; the check passes when there are none.
   */
  method CheckMissingNotes(present: string -> bool) returns (missing: seq<string>)
    ensures missing == Missing(ExpectedFiles(), present)
  {
    missing := [];
    for i := 0 to |SoundClasses|
      invariant missing == Missing(ExpectedBefore(i), present)
    {
      missing := CheckClass(present, SoundClasses[i], missing, ExpectedBefore(i));
    }
  }

  /** One pass of the check's outer loop: the names of one sound class are checked after those in `seen`. */
  method CheckClass(present: string -> bool, expectedNote: string, missingBefore: seq<string>, ghost seen: seq<string>)
    returns (missing: seq<string>)
    requires missingBefore == Missing(seen, present)
    ensures missing == Missing(seen + ExpectedFor(expectedNote), present)
  {
    ghost var low := LowName(expectedNote);
    missing := missingBefore;
    if expectedNote == "a" || expectedNote == "as" {
      var note := expectedNote + "-1.ogg";
      MissingSnoc(seen, note, present);
      if !present("assets/" + note) {
        missing := missing + [note];
      }
      assert low == [note];
    } else {
      assert seen + low == seen;
    }
    missing := CheckOctaves(present, expectedNote, missing, seen + low);
    AppendAssoc(seen, low, OctaveNames(expectedNote, SequenceLimit));
  }

  /** The inner loop over octaves 0..7 of one class, checked after the names in `seen`. */
  method CheckOctaves(present: string -> bool, expectedNote: string, missingBefore: seq<string>, ghost seen: seq<string>)
    returns (missing: seq<string>)
    requires missingBefore == Missing(seen, present)
    ensures missing == Missing(seen + OctaveNames(expectedNote, SequenceLimit), present)
  {
    missing := missingBefore;
    assert seen + OctaveNames(expectedNote, 0) == seen;
    for sequence := 0 to SequenceLimit
      invariant missing == Missing(seen + OctaveNames(expectedNote, sequence), present)
    {
      var note := expectedNote + NatToString(sequence) + ".ogg";
      ghost var before := seen + OctaveNames(expectedNote, sequence);
      MissingSnoc(before, note, present);
      if !present("assets/" + note) {
        missing := missing + [note];
      }
      AppendSnoc(seen, OctaveNames(expectedNote, sequence), note);
    }
  }

  /** Concatenation is associative. */
  lemma AppendAssoc<T>(a: seq<T>, b: seq<T>, c: seq<T>)
    ensures (a + b) + c == a + (b + c)
  {
  }

  /** Appending a list that ends in `x` is appending its front, then `x`. */
  lemma AppendSnoc<T>(a: seq<T>, b: seq<T>, x: T)
    ensures a + (b + [x]) == (a + b) + [x]
  {
  }

  /** The asset check expects 98 files, while loading reads 108: the octave -1 files of the ten other classes go unchecked. */
  lemma ExpectedCount()
    ensures |ExpectedFiles()| == 98
    ensures |SoundClasses| * (SequenceLimit - LowestSequence) == 108
  {
    ExpectedBeforeLength(|SoundClasses|);
  }

  /** Only the first two classes are "a" and "as". */
  lemma LaterClassesHaveNoLowOctave(j: nat)
    requires 2 <= j < |SoundClasses|
    ensures SoundClasses[j] != "a" && SoundClasses[j] != "as"
  {
    SoundClassesAreLettersAndDistinct();
    assert SoundClasses[j] != SoundClasses[0] && SoundClasses[j] != SoundClasses[1];
  }

  /** The first i classes contribute eight names each, and one more for each of "a" and "as" among them. */
  lemma {:induction false} ExpectedBeforeLength(i: nat)
    requires i <= |SoundClasses|
    ensures |ExpectedBefore(i)| == 8 * i + (if i < 2 then i else 2)
  {
    if i > 0 {
      ExpectedBeforeLength(i - 1);
      var note := SoundClasses[i - 1];
      assert ExpectedBefore(i) == ExpectedBefore(i - 1) + ExpectedFor(note);
      if i > 2 {
        LaterClassesHaveNoLowOctave(i - 1);
      } else {
        assert note == "a" || note == "as";
      }
    }
  }

  /** The expected files of class j are among the expected files. */
  lemma {:induction false} ExpectedIncludes(i: nat, j: nat, x: string)
    requires j < i <= |SoundClasses|
    requires x in ExpectedFor(SoundClasses[j])
    ensures x in ExpectedBefore(i)
  {
    if j < i - 1 {
      ExpectedIncludes(i - 1, j, x);
    }
  }

  /** When the asset check reports nothing, the file of every pair it covers exists. */
  lemma CheckedPairPresent(present: string -> bool, j: int, s: int)
    requires Missing(ExpectedFiles(), present) == []
    requires 0 <= j < |SoundClasses|
    requires 0 <= s < SequenceLimit || (s == -1 && j <= 1)
    ensures present(SamplePath(SoundClasses[j], s))
  {
    var note := SoundClasses[j];
    var name := if s == -1 then note + "-1.ogg" else note + NatToString(s) + ".ogg";
    if s == -1 {
      assert note == "a" || note == "as" by {
        assert j == 0 || j == 1;
      }
    }
    ExpectedNames(note, s);
    ExpectedIncludes(|SoundClasses|, j, name);
    MissingExactly(ExpectedFiles(), present, name);
    TestPathIsSamplePath(note, s);
  }

  /**
   * When the asset check finds nothing missing and every existing asset can
   * be read, loading stores every pair the check covers: every class at
   * octaves 0..7, and "a" and "as" at octave -1.
   */
  lemma CheckedAssetsAreLoaded(p: Player, files: FileSystem, present: string -> bool, j: int, s: I16)
    requires Holds(p, files)
    requires forall path :: present(path) ==> files(path).Some?
    requires Missing(ExpectedFiles(), present) == []
    requires 0 <= j < |SoundClasses|
    requires 0 <= s < SequenceLimit || (s == -1 && j <= 1)
    ensures p.Get(SoundClasses[j], s).Some?
  {
    CheckedPairPresent(present, j, s);
    GetAfterLoad(p, files, j, s);
  }
}
