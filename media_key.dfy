/** Naming of recorded media: `f"interview_{timestamp}.mp4"` / `.wav` with the
    timestamp `datetime.now().strftime("%Y%m%d_%H%M%S")`, used both as the
    file name in the local storage directory and as the remote object key.
    The clock is an input: the fields of the `datetime` it returns. */
module MediaKey {
  import opened Wrappers

  datatype MediaKind = Video | Audio

  const PREFIX: string := "interview_"
  const LOCAL_STORAGE_DIR: string := "local_storage"

  function Extension(kind: MediaKind): (ext: string)
    ensures |ext| == 4 && ext[0] == '.'
    ensures ParseExtension(ext) == Some(kind)
  {
    match kind
    case Video => ".mp4"
    case Audio => ".wav"
  }

  // ---------------------------------------------------------------------------
  // Timestamps

  predicate IsLeapYear(y: int)
  {
    y % 4 == 0 && (y % 100 != 0 || y % 400 == 0)
  }

  function DaysInMonth(y: int, m: int): int
    requires 1 <= m <= 12
  {
    if m == 2 then (if IsLeapYear(y) then 29 else 28)
    else if m == 4 || m == 6 || m == 9 || m == 11 then 30
    else 31
  }

  /** The fields of a `datetime` read with second resolution. */
  datatype Timestamp = Timestamp(year: int, month: int, day: int, hour: int, minute: int, second: int)
  {
    /** A date and time `datetime` can hold, with a four-digit year. */
    predicate Valid()
    {
      && 1000 <= year <= 9999
      && 1 <= month <= 12
      && 1 <= day <= DaysInMonth(year, month)
      && 0 <= hour < 24
      && 0 <= minute < 60
      && 0 <= second < 60
    }
  }

  // ---------------------------------------------------------------------------
  // Zero-padded decimal fields

  function Pow10(n: nat): nat
  {
    if n == 0 then 1 else 10 * Pow10(n - 1)
  }

  predicate IsDigit(c: char)
  {
    '0' <= c <= '9'
  }

  predicate AllDigits(s: string)
  {
    forall i :: 0 <= i < |s| ==> IsDigit(s[i])
  }

  function DigitChar(d: nat): (c: char)
    requires d < 10
    ensures IsDigit(c)
  {
    (d + '0' as int) as char
  }

  /** `n` written in decimal with `width` digits, zero-padded on the left
      (`%02d`-style); digits beyond `width` are dropped. */
  function Digits(n: nat, width: nat): (s: string)
    ensures |s| == width && AllDigits(s)
  {
    if width == 0 then [] else Digits(n / 10, width - 1) + [DigitChar(n % 10)]
  }

  /** The number a string of decimal digits denotes. */
  function DigitsValue(s: string): nat
    requires AllDigits(s)
  {
    if s == [] then 0 else DigitsValue(s[..|s| - 1]) * 10 + (s[|s| - 1] as int - '0' as int)
  }

  /** Padding loses nothing for a value that fits the width. */
  lemma {:induction false} DigitsThenValue(n: nat, width: nat)
    requires n < Pow10(width)
    ensures DigitsValue(Digits(n, width)) == n
  {
    if width > 0 {
      var s := Digits(n, width);
      assert s[..|s| - 1] == Digits(n / 10, width - 1);
      assert n / 10 < Pow10(width - 1);
      DigitsThenValue(n / 10, width - 1);
    }
  }

  /** Every digit string is the padded form of its own value. */
  lemma {:induction false} ValueThenDigits(s: string)
    requires AllDigits(s)
    ensures DigitsValue(s) < Pow10(|s|)
    ensures Digits(DigitsValue(s), |s|) == s
  {
    if s != [] {
      var init := s[..|s| - 1];
      ValueThenDigits(init);
      var v := DigitsValue(s);
      var d := s[|s| - 1] as int - '0' as int;
      assert v == DigitsValue(init) * 10 + d;
      assert v / 10 == DigitsValue(init) && v % 10 == d;
      assert DigitChar(d) == s[|s| - 1];
      assert init + [s[|s| - 1]] == s;
    }
  }

  // ---------------------------------------------------------------------------
  // File names

  /** `strftime("%Y%m%d_%H%M%S")`: 15 characters, eight date digits, an
      underscore and six time digits. */
  function Stamp(t: Timestamp): (s: string)
    requires t.Valid()
    ensures |s| == 15 && AllDigits(s[..8]) && s[8] == '_' && AllDigits(s[9..])
  {
    var date := Digits(t.year, 4) + Digits(t.month, 2) + Digits(t.day, 2);
    var time := Digits(t.hour, 2) + Digits(t.minute, 2) + Digits(t.second, 2);
    var s := date + "_" + time;
    assert s[..8] == date && s[9..] == time;
    s
  }

  /** Reads a stamp back into a valid timestamp. */
  function ParseStamp(s: string): Option<Timestamp>
  {
    if |s| != 15 || s[8] != '_'
      || !AllDigits(s[0..4]) || !AllDigits(s[4..6]) || !AllDigits(s[6..8])
      || !AllDigits(s[9..11]) || !AllDigits(s[11..13]) || !AllDigits(s[13..15])
    then None
    else
      var t := Timestamp(DigitsValue(s[0..4]), DigitsValue(s[4..6]), DigitsValue(s[6..8]),
                         DigitsValue(s[9..11]), DigitsValue(s[11..13]), DigitsValue(s[13..15]));
      if t.Valid() then Some(t) else None
  }

  lemma StampThenParse(t: Timestamp)
    requires t.Valid()
    ensures ParseStamp(Stamp(t)) == Some(t)
  {
    var s := Stamp(t);
    assert s[0..4] == Digits(t.year, 4);
    assert s[4..6] == Digits(t.month, 2);
    assert s[6..8] == Digits(t.day, 2);
    assert s[9..11] == Digits(t.hour, 2);
    assert s[11..13] == Digits(t.minute, 2);
    assert s[13..15] == Digits(t.second, 2);
    DigitsThenValue(t.year, 4);
    DigitsThenValue(t.month, 2);
    DigitsThenValue(t.day, 2);
    DigitsThenValue(t.hour, 2);
    DigitsThenValue(t.minute, 2);
    DigitsThenValue(t.second, 2);
  }

  lemma ParseThenStamp(s: string)
    requires ParseStamp(s).Some?
    ensures Stamp(ParseStamp(s).value) == s
  {
    var t := ParseStamp(s).value;
    ValueThenDigits(s[0..4]);
    ValueThenDigits(s[4..6]);
    ValueThenDigits(s[6..8]);
    ValueThenDigits(s[9..11]);
    ValueThenDigits(s[11..13]);
    ValueThenDigits(s[13..15]);
    assert s == s[0..4] + s[4..6] + s[6..8] + [s[8]] + s[9..11] + s[11..13] + s[13..15];
  }

  function ParseExtension(ext: string): Option<MediaKind>
  {
    if ext == ".mp4" then Some(Video) else if ext == ".wav" then Some(Audio) else None
  }

  /** The media file name and object key: 29 characters, the prefix, eight
      date digits, an underscore, six time digits and the kind's extension. */
  function FileName(kind: MediaKind, t: Timestamp): (name: string)
    requires t.Valid()
    ensures |name| == 29
    ensures name[..10] == PREFIX
    ensures AllDigits(name[10..18]) && name[18] == '_' && AllDigits(name[19..25])
    ensures name[25..] == Extension(kind)
  {
    var stamp := Stamp(t);
    var name := PREFIX + stamp + Extension(kind);
    assert name[10..25] == stamp;
    assert name[10..18] == stamp[..8] && name[19..25] == stamp[9..];
    name
  }

  /** Reads a media file name back into its kind and timestamp. */
  function ParseFileName(name: string): Option<(MediaKind, Timestamp)>
  {
    if |name| != 29 || name[..10] != PREFIX then None
    else
      match (ParseExtension(name[25..]), ParseStamp(name[10..25]))
      case (Some(kind), Some(t)) => Some((kind, t))
      case _ => None
  }

  /** Each media file name records its kind and timestamp. */
  lemma FileNameThenParse(kind: MediaKind, t: Timestamp)
    requires t.Valid()
    ensures ParseFileName(FileName(kind, t)) == Some((kind, t))
  {
    var name := FileName(kind, t);
    assert name[10..25] == Stamp(t);
    StampThenParse(t);
  }

  /** Only media file names parse: whatever parses is the name of what it
      parses to. */
  lemma ParseThenFileName(name: string)
    requires ParseFileName(name).Some?
    ensures var (kind, t) := ParseFileName(name).value; FileName(kind, t) == name
  {
    var (kind, t) := ParseFileName(name).value;
    ParseThenStamp(name[10..25]);
    assert name == name[..10] + name[10..25] + name[25..];
  }

  /** Distinct kinds or distinct timestamps give distinct names. */
  lemma FileNameInjective(k1: MediaKind, t1: Timestamp, k2: MediaKind, t2: Timestamp)
    requires t1.Valid() && t2.Valid()
    requires FileName(k1, t1) == FileName(k2, t2)
    ensures k1 == k2 && t1 == t2
  {
    FileNameThenParse(k1, t1);
    FileNameThenParse(k2, t2);
  }

  // ---------------------------------------------------------------------------
  // Local paths

  /** `os.path.join(directory, name)` on POSIX. */
  function PathJoin(directory: string, name: string): (path: string)
    ensures |name| <= |path| && path[|path| - |name|..] == name
    ensures (name == [] || name[0] != '/') ==> directory <= path
  {
    if |name| > 0 && name[0] == '/' then name
    else if directory == [] || directory[|directory| - 1] == '/' then directory + name
    else directory + "/" + name
  }

  /** `os.path.basename(path)`: the text after the last slash. */
  function Basename(path: string): (base: string)
    ensures '/' !in base
  {
    if path == [] || path[|path| - 1] == '/' then []
    else Basename(path[..|path| - 1]) + [path[|path| - 1]]
  }

  /** Where a media file is staged. */
  function LocalPath(name: string): (path: string)
    ensures (name == [] || name[0] != '/') ==> path == LOCAL_STORAGE_DIR + "/" + name
  {
    PathJoin(LOCAL_STORAGE_DIR, name)
  }

  lemma {:induction false} BasenameAfterSlash(directory: string, name: string)
    requires '/' !in name
    ensures Basename(directory + "/" + name) == name
  {
    if name != [] {
      var init := name[..|name| - 1];
      assert (directory + "/" + name)[..|directory + "/" + name| - 1] == directory + "/" + init;
      BasenameAfterSlash(directory, init);
      assert init + [name[|name| - 1]] == name;
    } else {
      assert directory + "/" + name == directory + "/";
    }
  }

  lemma NoSlashInFileName(kind: MediaKind, t: Timestamp)
    requires t.Valid()
    ensures '/' !in FileName(kind, t)
  {
  }

  /** The object key is the base name of the staged file's path, and that path
      lies in the local storage directory. */
  lemma KeyIsBasename(kind: MediaKind, t: Timestamp)
    requires t.Valid()
    ensures LocalPath(FileName(kind, t)) == LOCAL_STORAGE_DIR + "/" + FileName(kind, t)
    ensures Basename(LocalPath(FileName(kind, t))) == FileName(kind, t)
  {
    NoSlashInFileName(kind, t);
    BasenameAfterSlash(LOCAL_STORAGE_DIR, FileName(kind, t));
  }

  /** Distinct media names are staged at distinct paths. */
  lemma LocalPathInjective(kind1: MediaKind, t1: Timestamp, kind2: MediaKind, t2: Timestamp)
    requires t1.Valid() && t2.Valid()
    requires LocalPath(FileName(kind1, t1)) == LocalPath(FileName(kind2, t2))
    ensures kind1 == kind2 && t1 == t2
  {
    KeyIsBasename(kind1, t1);
    KeyIsBasename(kind2, t2);
    FileNameInjective(kind1, t1, kind2, t2);
  }
}
