/**
 * `detect_file_type` (import.py:133-146): classifies the input file by its
 * first 15 bytes and, failing that, by its first 100 decoded characters.
 */
module FileType {
  import opened Wrappers
  import opened Text
  import opened TextFile

  datatype FileType = PgDumpBinary | GeoPackage | SqlScript | Unknown

  /** Only this many bytes are read for the binary checks. */
  const HeaderSize: nat := 15
  /** Only this many characters are read for the text check. */
  const TextWindowSize: nat := 100

  /** "PGDMP", the magic of pg_dump's custom format. */
  const PgdmpMagic: seq<byte> := [0x50, 0x47, 0x44, 0x4D, 0x50]
  /** "SQLite format 3", the magic at the start of every SQLite (and so GeoPackage) file. */
  const SqliteMagic: seq<byte> :=
    [0x53, 0x51, 0x4C, 0x69, 0x74, 0x65, 0x20, 0x66, 0x6F, 0x72, 0x6D, 0x61, 0x74, 0x20, 0x33]

  /** `f.read(15)` in binary mode. */
  function Header(b: seq<byte>): (h: seq<byte>)
    ensures |h| == if |b| <= HeaderSize then |b| else HeaderSize
    ensures StartsWith(b, h)
  {
    if |b| <= HeaderSize then b else b[..HeaderSize]
  }

  /**
   * `f.read(100).upper()` in text mode: at most 100 characters, none of them
   * a lower-case ASCII letter.
   */
  function TextWindow(b: seq<byte>): (w: string)
    ensures |w| <= TextWindowSize
    ensures forall i :: 0 <= i < |w| ==> !IsLowerAscii(w[i])
  {
    Upper(ReadText(b, TextWindowSize))
  }

  /** `"CREATE" in t or "SET" in t or "--" in t`: any one occurrence anywhere is enough. */
  function HasSqlMarker(t: string): (b: bool)
    ensures b <==>
      (exists i :: OccursAt(t, "CREATE", i))
      || (exists i :: OccursAt(t, "SET", i))
      || (exists i :: OccursAt(t, "--", i))
  {
    Contains(t, "CREATE") || Contains(t, "SET") || Contains(t, "--")
  }

  /**
   * The classifier over the file's bytes; `None` is a file that could not be
   * read, which the source's exception handler turns into UNKNOWN.
   */
  function Detect(file: Option<seq<byte>>): (t: FileType)
    ensures file.None? ==> t == Unknown
  {
    match file
    case None => Unknown
    case Some(b) =>
      var h := Header(b);
      if StartsWith(h, PgdmpMagic) then PgDumpBinary
      else if Contains(h, SqliteMagic) then GeoPackage
      else if HasSqlMarker(TextWindow(b)) then SqlScript
      else Unknown
  }

  /** A file is a binary dump exactly when it begins with "PGDMP", whatever follows. */
  lemma PgDumpIffMagicPrefix(b: seq<byte>)
    ensures Detect(Some(b)) == PgDumpBinary <==> StartsWith(b, PgdmpMagic)
  {
    var h := Header(b);
    if StartsWith(b, PgdmpMagic) {
      assert h[..|PgdmpMagic|] == b[..|PgdmpMagic|];
    }
  }

  /** Corollary: "PGDMP" followed by any payload is a binary dump. */
  lemma PgdmpPayload(rest: seq<byte>)
    ensures Detect(Some(PgdmpMagic + rest)) == PgDumpBinary
  {
    PgDumpIffMagicPrefix(PgdmpMagic + rest);
    assert (PgdmpMagic + rest)[..|PgdmpMagic|] == PgdmpMagic;
  }

  /**
   * Since only 15 bytes are read and the magic is 15 bytes long, the
   * substring test is a whole-header equality: GEOPACKAGE exactly when the
   * file's first 15 bytes are "SQLite format 3".
   */
  lemma GeoPackageIffExactHeader(b: seq<byte>)
    ensures Detect(Some(b)) == GeoPackage <==> |b| >= HeaderSize && b[..HeaderSize] == SqliteMagic
  {
    var h := Header(b);
    if Contains(h, SqliteMagic) {
      var i :| OccursAt(h, SqliteMagic, i);
      assert i == 0 && |h| == HeaderSize;
      assert h == SqliteMagic;
      assert !StartsWith(h, PgdmpMagic) by { assert h[0] != PgdmpMagic[0]; }
    }
    if |b| >= HeaderSize && b[..HeaderSize] == SqliteMagic {
      assert OccursAt(h, SqliteMagic, 0);
    }
  }

  /**
   * SQL_SCRIPT exactly when neither binary marker matched and the upper-cased
   * text window contains CREATE, SET or "--"; UNKNOWN when nothing matched.
   */
  lemma SqlScriptOrUnknown(b: seq<byte>)
    ensures Detect(Some(b)) == SqlScript <==>
      !StartsWith(b, PgdmpMagic) && !(|b| >= HeaderSize && b[..HeaderSize] == SqliteMagic) && HasSqlMarker(TextWindow(b))
    ensures Detect(Some(b)) == Unknown <==>
      !StartsWith(b, PgdmpMagic) && !(|b| >= HeaderSize && b[..HeaderSize] == SqliteMagic) && !HasSqlMarker(TextWindow(b))
  {
    PgDumpIffMagicPrefix(b);
    GeoPackageIffExactHeader(b);
  }

  /** For an ASCII file without carriage returns the window is its first 100 characters, upper-cased. */
  lemma AsciiTextWindow(s: string)
    requires IsAscii(s) && '\r' !in s
    ensures TextWindow(AsciiBytes(s)) == Upper(if |s| <= TextWindowSize then s else s[..TextWindowSize])
  {
    ReadAsciiText(s, TextWindowSize);
  }

  /**
   * The same holds for a file saved with "\r\n" line ends: the window is
   * taken after translation, so each line end counts as one character.
   */
  lemma AsciiCrLfTextWindow(s: string)
    requires IsAscii(s) && '\r' !in s
    ensures TextWindow(AsciiBytes(CrLf(s))) == Upper(if |s| <= TextWindowSize then s else s[..TextWindowSize])
  {
    ReadCrLfText(s, TextWindowSize);
  }

  /**
   * A lone "\r" reads as a line end, so "-\r-" holds no "--": the file is
   * UNKNOWN, where deleting the carriage return would make it a script.
   */
  lemma LoneCrSplitsComment()
    ensures Detect(Some(AsciiBytes(LfToCr("-\n-")))) == Unknown
  {
    var b := AsciiBytes(LfToCr("-\n-"));
    DashesWindow(b);
    assert !StartsWith(b, PgdmpMagic) by { assert b[0] != PgdmpMagic[0]; }
    SqlScriptOrUnknown(b);
  }

  /** The window of "-\r-" is "-\n-", which holds no marker. */
  lemma DashesWindow(b: seq<byte>)
    requires b == AsciiBytes(LfToCr("-\n-"))
    ensures |b| == 3 && !HasSqlMarker(TextWindow(b))
  {
    ReadLoneCrText("-\n-", TextWindowSize);
    NoMarkerInDashes(TextWindow(b));
  }

  lemma NoMarkerInDashes(w: string)
    requires w == Upper("-\n-")
    ensures !HasSqlMarker(w)
  {
    assert w == "-\n-";
    assert !OccursAt(w, "--", 0) && !OccursAt(w, "--", 1);
  }

  /** The marker test is a plain substring test: "OFFSET" contains "SET". */
  lemma OffsetIsMarker(t: string)
    requires Contains(t, "OFFSET")
    ensures HasSqlMarker(t)
  {
    var i :| OccursAt(t, "OFFSET", i);
    assert t[i + 3..i + 6] == t[i..i + 6][3..6];
    assert OccursAt(t, "SET", i + 3);
  }

  /** The test is case-insensitive: a lower-case "set" in the window is a marker after upper-casing. */
  lemma LowerCaseSetIsMarker(t: string)
    requires Contains(t, "set")
    ensures HasSqlMarker(Upper(t))
  {
    var i :| OccursAt(t, "set", i);
    var u := Upper(t);
    assert u[i] == 'S' && u[i + 1] == 'E' && u[i + 2] == 'T';
    assert u[i..i + 3] == "SET";
    assert OccursAt(u, "SET", i);
  }
}
