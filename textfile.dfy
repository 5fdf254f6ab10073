/**
 * What Python's text-mode `open(path, 'r', encoding='utf-8', errors='ignore')`
 * followed by `read(n)` yields for a file's bytes: UTF-8 decoding that drops
 * every byte not part of a well-formed sequence, then universal-newline
 * translation, then the first `n` characters.
 */
module TextFile {

  newtype byte = b: int | 0 <= b < 256

  predicate IsContinuation(b: byte)
  {
    0x80 <= b <= 0xBF
  }

  /**
   * Length of the well-formed multi-byte UTF-8 sequence at the start of `b`
   * (the ranges of Table 3-7 of the Unicode Standard), or 0 when there is none.
   */
  function SequenceLength(b: seq<byte>): (n: nat)
    ensures n == 0 || (2 <= n <= 4 && n <= |b|)
  {
    if |b| == 0 then 0
    else if 0xC2 <= b[0] <= 0xDF then
      if |b| >= 2 && IsContinuation(b[1]) then 2 else 0
    else if 0xE0 <= b[0] <= 0xEF then
      var lo: byte := if b[0] == 0xE0 then 0xA0 else 0x80;
      var hi: byte := if b[0] == 0xED then 0x9F else 0xBF;
      if |b| >= 3 && lo <= b[1] <= hi && IsContinuation(b[2]) then 3 else 0
    else if 0xF0 <= b[0] <= 0xF4 then
      var lo: byte := if b[0] == 0xF0 then 0x90 else 0x80;
      var hi: byte := if b[0] == 0xF4 then 0x8F else 0xBF;
      if |b| >= 4 && lo <= b[1] <= hi && IsContinuation(b[2]) && IsContinuation(b[3]) then 4 else 0
    else 0
  }

  /** The scalar value encoded by the well-formed sequence at the start of `b`. */
  function ScalarAt(b: seq<byte>): (c: char)
    requires SequenceLength(b) != 0
    ensures 0x80 <= c as int
  {
    var n := SequenceLength(b);
    var b0, b1 := b[0] as int, b[1] as int - 0x80;
    if n == 2 then
      ((b0 - 0xC0) * 64 + b1) as char
    else if n == 3 then
      ((b0 - 0xE0) * 4096 + b1 * 64 + (b[2] as int - 0x80)) as char
    else
      ((b0 - 0xF0) * 262144 + b1 * 4096 + (b[2] as int - 0x80) * 64 + (b[3] as int - 0x80)) as char
  }

  /**
   * `bytes.decode('utf-8', errors='ignore')`. An ASCII byte is its own
   * character; a well-formed multi-byte sequence is one character; any other
   * byte is dropped. Dropping one byte at a time gives the same text as
   * dropping a maximal ill-formed subpart, since a continuation byte never
   * starts a character.
   */
  function DecodeIgnore(b: seq<byte>): (s: string)
    ensures |s| <= |b|
    decreases |b|
  {
    if b == [] then []
    else if b[0] < 0x80 then [b[0] as int as char] + DecodeIgnore(b[1..])
    else if SequenceLength(b) == 0 then DecodeIgnore(b[1..])
    else [ScalarAt(b)] + DecodeIgnore(b[SequenceLength(b)..])
  }

  /**
   * Universal newlines: "\r\n" and a lone "\r" both read as "\n".
   */
  function TranslateNewlines(s: string): (r: string)
    ensures |r| <= |s|
    ensures '\r' !in r
    decreases |s|
  {
    if s == [] then []
    else if s[0] == '\r' then
      ['\n'] + TranslateNewlines(if |s| > 1 && s[1] == '\n' then s[2..] else s[1..])
    else [s[0]] + TranslateNewlines(s[1..])
  }

  /** Each line end read alone: "\r\n", a lone "\r" and "\n" all read as "\n". */
  lemma TranslateLineEnds()
    ensures TranslateNewlines("\r\n") == "\n"
    ensures TranslateNewlines("\r") == "\n"
    ensures TranslateNewlines("\n") == "\n"
  {
    assert "\r\n"[2..] == [];
    assert "\r"[1..] == [];
    assert "\n"[1..] == [];
  }

  /**
   * Translation works piece by piece: a text can be cut anywhere except
   * between the "\r" and the "\n" of a "\r\n", and the pieces translated
   * separately. With TranslateLineEnds this fixes the result on every text,
   * whatever mix of line ends it holds.
   */
  lemma {:induction false} TranslateConcat(a: string, b: string)
    requires a == [] || b == [] || a[|a| - 1] != '\r' || b[0] != '\n'
    ensures TranslateNewlines(a + b) == TranslateNewlines(a) + TranslateNewlines(b)
    decreases |a|
  {
    if a == [] {
      assert a + b == b;
    } else {
      var ab := a + b;
      var k := if a[0] == '\r' && |a| > 1 && a[1] == '\n' then 2 else 1;
      var head := if a[0] == '\r' then '\n' else a[0];
      var ra := a[k..];
      var rab := ab[k..];
      assert rab == ra + b;
      ConcatStep(a, b, ab, k, head);
      if ra != [] {
        assert ra[|ra| - 1] == a[|a| - 1];
      }
      TranslateConcat(ra, b);
      ConsAssoc(head, TranslateNewlines(ra), TranslateNewlines(b));
    }
  }

  /** Prepending a character commutes with concatenation. */
  lemma ConsAssoc(h: char, x: string, y: string)
    ensures [h] + (x + y) == ([h] + x) + y
  {
  }

  /** `a + b` starts with the same step as `a` when no "\r\n" is cut. */
  lemma ConcatStep(a: string, b: string, ab: string, k: nat, head: char)
    requires a != [] && ab == a + b
    requires b == [] || a[|a| - 1] != '\r' || b[0] != '\n'
    requires k == if a[0] == '\r' && |a| > 1 && a[1] == '\n' then 2 else 1
    requires head == if a[0] == '\r' then '\n' else a[0]
    ensures TranslateNewlines(a) == [head] + TranslateNewlines(a[k..])
    ensures TranslateNewlines(ab) == [head] + TranslateNewlines(ab[k..])
  {
    TranslateStep(a, k, head);
    assert ab[0] == a[0];
    if |a| > 1 { assert ab[1] == a[1]; }
    else if b != [] { assert ab[1] == b[0]; }
    TranslateStep(ab, k, head);
  }

  /** One step of translation: the first line end or character read, then the rest. */
  lemma TranslateStep(s: string, k: nat, head: char)
    requires s != []
    requires k == if s[0] == '\r' && |s| > 1 && s[1] == '\n' then 2 else 1
    requires head == if s[0] == '\r' then '\n' else s[0]
    ensures TranslateNewlines(s) == [head] + TranslateNewlines(s[k..])
  {
  }

  /** Mixed line ends: a "\r" right before a "\r\n" is a line end of its own. */
  lemma CrBeforeCrLf()
    ensures TranslateNewlines("\r\r\n") == "\n\n"
  {
    TranslateLineEnds();
    TranslateConcat("\r", "\r\n");
    assert "\r" + "\r\n" == "\r\r\n";
  }

  /** `s` with every "\n" written as "\r\n", as a Windows editor saves it. */
  function CrLf(s: string): (r: string)
    ensures |r| >= |s|
    ensures IsAscii(s) ==> IsAscii(r)
  {
    if s == [] then []
    else (if s[0] == '\n' then ['\r', '\n'] else [s[0]]) + CrLf(s[1..])
  }

  /** `s` with every "\n" written as a lone "\r", as classic Mac OS saves it. */
  function LfToCr(s: string): (r: string)
    ensures |r| == |s|
    ensures '\n' !in r
    ensures IsAscii(s) ==> IsAscii(r)
  {
    if s == [] then []
    else [if s[0] == '\n' then '\r' else s[0]] + LfToCr(s[1..])
  }

  /** Reading "\r\n" line ends gives back the text with "\n" line ends. */
  lemma {:induction false} TranslateCrLf(s: string)
    requires '\r' !in s
    ensures TranslateNewlines(CrLf(s)) == s
  {
    if s != [] {
      assert '\r' !in s[1..];
      TranslateCrLf(s[1..]);
      var rest := CrLf(s[1..]);
      if s[0] == '\n' {
        assert CrLf(s)[2..] == rest;
      } else {
        assert CrLf(s)[1..] == rest;
      }
    }
  }

  /** Reading lone "\r" line ends gives back the text with "\n" line ends. */
  lemma {:induction false} TranslateLoneCr(s: string)
    requires '\r' !in s
    ensures TranslateNewlines(LfToCr(s)) == s
  {
    if s != [] {
      assert '\r' !in s[1..];
      TranslateLoneCr(s[1..]);
      var rest := LfToCr(s[1..]);
      assert LfToCr(s)[1..] == rest;
      if s[0] == '\n' && |rest| > 0 {
        assert rest[0] != '\n';
      }
    }
  }

  /** `f.read(n)` on the file opened in text mode: at most `n` characters. */
  function ReadText(b: seq<byte>, n: nat): (s: string)
    ensures |s| <= n
  {
    var t := TranslateNewlines(DecodeIgnore(b));
    if |t| <= n then t else t[..n]
  }

  predicate IsAscii(s: string)
  {
    forall i :: 0 <= i < |s| ==> s[i] < 128 as char
  }

  /** The ASCII encoding of an ASCII string: one byte per character. */
  function AsciiBytes(s: string): (b: seq<byte>)
    requires IsAscii(s)
    ensures |b| == |s|
    ensures forall i :: 0 <= i < |s| ==> b[i] as int == s[i] as int
  {
    if s == [] then [] else [s[0] as int as byte] + AsciiBytes(s[1..])
  }

  /** ASCII text survives the round trip through bytes unchanged. */
  lemma {:induction false} DecodeAscii(s: string)
    requires IsAscii(s)
    ensures DecodeIgnore(AsciiBytes(s)) == s
  {
    if s != [] {
      var b := AsciiBytes(s);
      assert b[1..] == AsciiBytes(s[1..]);
      DecodeAscii(s[1..]);
    }
  }

  /** Text without carriage returns is left alone by newline translation. */
  lemma {:induction false} TranslateWithoutCarriageReturn(s: string)
    requires '\r' !in s
    ensures TranslateNewlines(s) == s
  {
    if s != [] {
      assert '\r' !in s[1..];
      TranslateWithoutCarriageReturn(s[1..]);
    }
  }

  /** For ASCII text without carriage returns, `read(n)` is the first `n` characters. */
  lemma ReadAsciiText(s: string, n: nat)
    requires IsAscii(s) && '\r' !in s
    ensures ReadText(AsciiBytes(s), n) == if |s| <= n then s else s[..n]
  {
    DecodeAscii(s);
    TranslateWithoutCarriageReturn(s);
  }

  /** For ASCII text saved with "\r\n" line ends, `read(n)` is the first `n` characters with "\n" line ends. */
  lemma ReadCrLfText(s: string, n: nat)
    requires IsAscii(s) && '\r' !in s
    ensures ReadText(AsciiBytes(CrLf(s)), n) == if |s| <= n then s else s[..n]
  {
    DecodeAscii(CrLf(s));
    TranslateCrLf(s);
  }

  /** For ASCII text saved with lone "\r" line ends, `read(n)` is the first `n` characters with "\n" line ends. */
  lemma ReadLoneCrText(s: string, n: nat)
    requires IsAscii(s) && '\r' !in s
    ensures ReadText(AsciiBytes(LfToCr(s)), n) == if |s| <= n then s else s[..n]
  {
    DecodeAscii(LfToCr(s));
    TranslateLoneCr(s);
  }
}
