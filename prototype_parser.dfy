/**
 * The sprite asset format and its parser (`parse_prototype` in
 * `ligma/src/state.rs`).  An asset is text with one cell per line,
 * `"<x> <y> <glyph>"`: two decimal `u16` numbers and a glyph, separated by
 * whitespace.  The parser reads every line; the first line that lacks a field
 * or holds a number `u16::from_str_radix` rejects stops it (the source
 * panics there), so a malformed line is an error and never skipped.
 *
 * The library functions the parser relies on are modelled as written in the
 * Rust standard library: `str::lines`, `str::split_whitespace` (with
 * `char::is_whitespace`, the Unicode White_Space property) and
 * `u16::from_str_radix` with radix 10.
 */
module PrototypeParser {
  import opened Wrappers
  import opened Sprites

  /** `char::is_whitespace`: the characters with the Unicode White_Space property. */
  predicate IsWhitespace(c: char)
  {
    || ('\t' <= c <= '\r')
    || c == ' '
    || c == '\U{85}'
    || c == '\U{A0}'
    || c == '\U{1680}'
    || ('\U{2000}' <= c <= '\U{200A}')
    || c == '\U{2028}'
    || c == '\U{2029}'
    || c == '\U{202F}'
    || c == '\U{205F}'
    || c == '\U{3000}'
  }

  // ---------------------------------------------------------------------
  // str::lines

  /** The index of the first line feed in `s`, or `|s|` when there is none. */
  function NewlineIndex(s: string): (i: nat)
    ensures i <= |s|
    ensures forall j :: 0 <= j < i ==> s[j] != '\n'
    ensures i < |s| ==> s[i] == '\n'
  {
    if s == [] || s[0] == '\n' then 0 else 1 + NewlineIndex(s[1..])
  }

  /** Drops one carriage return ending a line that ended in a line feed. */
  function StripCarriageReturn(l: string): string
  {
    if |l| > 0 && l[|l| - 1] == '\r' then l[..|l| - 1] else l
  }

  /**
   * `str::lines`: the text split after every line feed; a line that ended in
   * "\n" or "\r\n" loses that ending, a final line without a line feed is
   * kept as it is, and a final line feed adds no empty line.
   */
  function Lines(s: string): (r: seq<string>)
    ensures forall k :: 0 <= k < |r| ==> '\n' !in r[k]
    decreases |s|
  {
    if s == [] then []
    else
      var i := NewlineIndex(s);
      if i == |s| then [s] else [StripCarriageReturn(s[..i])] + Lines(s[i + 1..])
  }

  // ---------------------------------------------------------------------
  // str::split_whitespace

  predicate NoWhitespace(w: string)
  {
    forall j :: 0 <= j < |w| ==> !IsWhitespace(w[j])
  }

  /** The length of the run of non-whitespace characters that starts `s`. */
  function TokenLength(s: string): (n: nat)
    ensures n <= |s|
    ensures NoWhitespace(s[..n])
    ensures n < |s| ==> IsWhitespace(s[n])
  {
    if s == [] || IsWhitespace(s[0]) then 0
    else
      var n := 1 + TokenLength(s[1..]);
      assert s[..n] == [s[0]] + s[1..][..n - 1];
      n
  }

  /**
   * `str::split_whitespace`: the maximal runs of non-whitespace characters,
   * in order.  Every word is non-empty and holds no whitespace.
   */
  function Words(s: string): (r: seq<string>)
    ensures forall k :: 0 <= k < |r| ==> |r[k]| > 0 && NoWhitespace(r[k])
    decreases |s|
  {
    if s == [] then []
    else if IsWhitespace(s[0]) then Words(s[1..])
    else
      var n := TokenLength(s);
      [s[..n]] + Words(s[n..])
  }

  // ---------------------------------------------------------------------
  // u16::from_str_radix(_, 10)

  predicate IsDigit(c: char)
  {
    '0' <= c <= '9'
  }

  predicate AllDigits(s: string)
  {
    forall j :: 0 <= j < |s| ==> IsDigit(s[j])
  }

  function DigitValue(c: char): nat
    requires IsDigit(c)
  {
    c as int - '0' as int
  }

  /** The number a string of decimal digits denotes, most significant digit first. */
  function DigitsValue(s: string): nat
    requires AllDigits(s)
  {
    if s == [] then 0 else 10 * DigitsValue(s[..|s| - 1]) + DigitValue(s[|s| - 1])
  }

  /**
   * `u16::from_str_radix(s, 10)`: an optional `+` followed by at least one
   * ASCII digit, denoting a value below 2^16.  A lone sign, any other
   * character (a `-` included, the type being unsigned) and overflow are
   * errors.
   */
  function ParseU16(s: string): (r: Option<U16>)
    ensures s == [] || s == ['+'] || '-' in s ==> r.None?
    ensures r.Some? ==>
      || (AllDigits(s) && r.value == DigitsValue(s))
      || (s[0] == '+' && AllDigits(s[1..]) && r.value == DigitsValue(s[1..]))
    ensures |s| > 0 && AllDigits(s) && DigitsValue(s) < U16_MODULUS ==> r == Some(DigitsValue(s))
  {
    var digits := if |s| > 0 && s[0] == '+' then s[1..] else s;
    if digits == [] || !AllDigits(digits) || DigitsValue(digits) >= U16_MODULUS then None
    else Some(DigitsValue(digits))
  }

  // ---------------------------------------------------------------------
  // parse_prototype

  /** Why a line was refused: the `expect` message the source panics with. */
  datatype ErrorKind =
    | MissingField  // "error parsing assets content": fewer than three fields
    | InvalidNumber // "error converting to u16": a field `from_str_radix` rejects

  /** The first refused line (counted from 0) and why it was refused. */
  datatype ParseError = ParseError(line: nat, kind: ErrorKind)

  /**
   * One line of an asset: the first two whitespace-separated fields as `x`
   * and `y`, the first character of the third field as the glyph; fields
   * beyond the third are ignored.  The fields are consumed in the order the
   * source consumes them, so a bad `x` is reported before a missing `y`.
   * The third field is never empty, so the source's `chars.get(0)` always
   * succeeds.
   */
  function ParseLine(l: string): (r: Result<Coord, ErrorKind>)
    ensures r.Success? <==>
      && |Words(l)| >= 3
      && ParseU16(Words(l)[0]).Some?
      && ParseU16(Words(l)[1]).Some?
    ensures r.Success? ==>
      r.value == Coord(ParseU16(Words(l)[0]).value, ParseU16(Words(l)[1]).value, Words(l)[2][0])
    ensures r == Failure(InvalidNumber) <==>
      || (|Words(l)| >= 1 && ParseU16(Words(l)[0]).None?)
      || (|Words(l)| >= 2 && ParseU16(Words(l)[1]).None?)
  {
    var fields := Words(l);
    if |fields| < 1 then Failure(MissingField)
    else if ParseU16(fields[0]).None? then Failure(InvalidNumber)
    else if |fields| < 2 then Failure(MissingField)
    else if ParseU16(fields[1]).None? then Failure(InvalidNumber)
    else if |fields| < 3 then Failure(MissingField)
    else Success(Coord(ParseU16(fields[0]).value, ParseU16(fields[1]).value, fields[2][0]))
  }

  /** Each line parsed on its own. */
  function ParsedLines(lines: seq<string>): seq<Result<Coord, ErrorKind>>
  {
    seq(|lines|, k requires 0 <= k < |lines| => ParseLine(lines[k]))
  }

  /**
   * The per-line results from line `first` on, gathered in order and cut short
   * at the first failure; a failure stands for the panic of the first
   * `expect` that refuses a line, which ends the loop over the lines.  The
   * result is one cell per line exactly when every line parses, and otherwise
   * names the first line that does not.
   */
  function Collect(results: seq<Result<Coord, ErrorKind>>, first: nat): (r: Result<seq<Coord>, ParseError>)
    ensures r.Success? <==> forall k :: 0 <= k < |results| ==> results[k].Success?
    ensures r.Success? ==>
      && |r.value| == |results|
      && forall k :: 0 <= k < |results| ==> results[k] == Success(r.value[k])
    ensures r.Failure? ==>
      && first <= r.error.line < first + |results|
      && results[r.error.line - first] == Failure(r.error.kind)
      && forall k :: 0 <= k < r.error.line - first ==> results[k].Success?
    decreases |results|
  {
    if results == [] then Success([])
    else
      match results[0]
      case Failure(kind) => Failure(ParseError(first, kind))
      case Success(c) =>
        var rest := Collect(results[1..], first + 1);
        assert forall k :: 1 <= k < |results| ==> results[k] == results[1..][k - 1];
        match rest
        case Failure(e) => Failure(e)
        case Success(cs) =>
          assert forall k :: 1 <= k < |results| ==> ([c] + cs)[k] == cs[k - 1];
          Success([c] + cs)
  }

  /**
   * `parse_prototype`: an asset's text parsed into a template.  It succeeds
   * exactly when every line of the content parses, and then yields one cell
   * per line in line order; on failure it names the first refused line and
   * why, so a malformed line is never skipped.
   */
  function ParsePrototype(content: string): (r: Result<seq<Coord>, ParseError>)
    ensures r.Success? <==> forall k :: 0 <= k < |Lines(content)| ==> ParseLine(Lines(content)[k]).Success?
    ensures r.Success? ==>
      && |r.value| == |Lines(content)|
      && forall k :: 0 <= k < |Lines(content)| ==> ParseLine(Lines(content)[k]) == Success(r.value[k])
    ensures r.Failure? ==>
      && r.error.line < |Lines(content)|
      && ParseLine(Lines(content)[r.error.line]) == Failure(r.error.kind)
      && forall k :: 0 <= k < r.error.line ==> ParseLine(Lines(content)[k]).Success?
  {
    var lines := Lines(content);
    var results := ParsedLines(lines);
    assert |results| == |lines|;
    assert forall k :: 0 <= k < |lines| ==> results[k] == ParseLine(lines[k]);
    assert (forall k :: 0 <= k < |lines| ==> ParseLine(lines[k]).Success?) ==>
           (forall k :: 0 <= k < |results| ==> results[k].Success?);
    Collect(results, 0)
  }

  /** An asset the source loads without panicking. */
  predicate Loadable(content: string)
  {
    ParsePrototype(content).Success?
  }

  // ---------------------------------------------------------------------
  // The asset format, written out: the inverse of the parser.

  function DigitChar(d: nat): (c: char)
    requires d < 10
    ensures IsDigit(c) && DigitValue(c) == d
  {
    ('0' as int + d) as char
  }

  /** The decimal numeral of `n`, without sign or leading zeros. */
  function Decimal(n: nat): (s: string)
    ensures |s| > 0 && AllDigits(s)
  {
    if n < 10 then [DigitChar(n)] else Decimal(n / 10) + [DigitChar(n % 10)]
  }

  /** A cell as one asset line, `"<x> <y> <glyph>"`. */
  function FormatLine(c: Coord): string
  {
    Decimal(c.x) + ([' '] + (Decimal(c.y) + ([' '] + [c.ch])))
  }

  /** A template as asset text: one line per cell, each ended by a line feed. */
  function FormatPrototype(prototype: seq<Coord>): string
  {
    if prototype == [] then "" else FormatLine(prototype[0]) + "\n" + FormatPrototype(prototype[1..])
  }

  /** A glyph the format can carry: the parser splits fields at whitespace. */
  predicate GlyphsWritable(prototype: seq<Coord>)
  {
    forall k :: 0 <= k < |prototype| ==> !IsWhitespace(prototype[k].ch)
  }

  lemma {:induction false} DecimalValue(n: nat)
    ensures DigitsValue(Decimal(n)) == n
  {
    if n >= 10 {
      DecimalValue(n / 10);
      var s := Decimal(n);
      assert s[..|s| - 1] == Decimal(n / 10);
    }
  }

  /** `from_str_radix` reads back every `u16` written in decimal. */
  lemma ParseU16Decimal(v: U16)
    ensures ParseU16(Decimal(v)) == Some(v)
  {
    DecimalValue(v);
  }

  lemma {:induction false} TokenLengthOfWord(t: string, rest: string)
    requires NoWhitespace(t)
    requires rest == [] || IsWhitespace(rest[0])
    ensures TokenLength(t + rest) == |t|
  {
    if t != [] {
      assert (t + rest)[1..] == t[1..] + rest;
      TokenLengthOfWord(t[1..], rest);
    }
  }

  /** A word followed by whitespace or the end is split off as one field. */
  lemma WordsOfWord(t: string, rest: string)
    requires |t| > 0 && NoWhitespace(t)
    requires rest == [] || IsWhitespace(rest[0])
    ensures Words(t + rest) == [t] + Words(rest)
  {
    TokenLengthOfWord(t, rest);
    assert (t + rest)[..|t|] == t;
    assert (t + rest)[|t|..] == rest;
  }

  lemma DecimalNoWhitespace(n: nat)
    ensures NoWhitespace(Decimal(n))
  {
    var s := Decimal(n);
    forall j | 0 <= j < |s|
      ensures !IsWhitespace(s[j])
    {
      assert IsDigit(s[j]);
    }
  }

  lemma WordsOfSpace(rest: string)
    ensures Words([' '] + rest) == Words(rest)
  {
    assert ([' '] + rest)[1..] == rest;
  }

  lemma FieldsOfLine(c: Coord)
    requires !IsWhitespace(c.ch)
    ensures Words(FormatLine(c)) == [Decimal(c.x), Decimal(c.y), [c.ch]]
  {
    var dx, dy, g := Decimal(c.x), Decimal(c.y), [c.ch];
    DecimalNoWhitespace(c.x);
    DecimalNoWhitespace(c.y);
    var s3 := [' '] + g;
    var s2 := dy + s3;
    var s1 := [' '] + s2;
    assert Words(g) == [g] by {
      assert g + [] == g;
      WordsOfWord(g, []);
    }
    WordsOfSpace(g);
    WordsOfWord(dy, s3);
    WordsOfSpace(s2);
    WordsOfWord(dx, s1);
  }

  /** Every cell written as an asset line is read back as that cell. */
  lemma ParseFormatLine(c: Coord)
    requires !IsWhitespace(c.ch)
    ensures ParseLine(FormatLine(c)) == Success(c)
  {
    FieldsOfLine(c);
    ParseU16Decimal(c.x);
    ParseU16Decimal(c.y);
  }

  lemma FormatLineShape(c: Coord)
    requires !IsWhitespace(c.ch)
    ensures '\n' !in FormatLine(c)
    ensures FormatLine(c)[|FormatLine(c)| - 1] == c.ch
  {
    var l := FormatLine(c);
    DecimalNoWhitespace(c.x);
    DecimalNoWhitespace(c.y);
    forall j | 0 <= j < |l|
      ensures l[j] != '\n'
    {
      assert l[j] == ' ' || l[j] == c.ch || !IsWhitespace(l[j]);
    }
  }

  lemma {:induction false} LinesOfLine(l: string, rest: string)
    requires '\n' !in l
    requires |l| > 0 && l[|l| - 1] != '\r'
    ensures Lines(l + "\n" + rest) == [l] + Lines(rest)
  {
    var s := l + "\n" + rest;
    NewlineAt(l, rest);
    assert s[..|l|] == l;
    assert s[|l| + 1..] == rest;
  }

  lemma {:induction false} NewlineAt(l: string, rest: string)
    requires '\n' !in l
    ensures NewlineIndex(l + "\n" + rest) == |l|
  {
    if l != [] {
      assert (l + "\n" + rest)[1..] == l[1..] + "\n" + rest;
      NewlineAt(l[1..], rest);
    }
  }

  /** Reading back the text of a template gives one line per cell. */
  lemma {:induction false} LinesOfFormat(prototype: seq<Coord>)
    requires GlyphsWritable(prototype)
    ensures |Lines(FormatPrototype(prototype))| == |prototype|
    ensures forall k :: 0 <= k < |prototype| ==> Lines(FormatPrototype(prototype))[k] == FormatLine(prototype[k])
  {
    if prototype != [] {
      FormatLineShape(prototype[0]);
      LinesOfLine(FormatLine(prototype[0]), FormatPrototype(prototype[1..]));
      LinesOfFormat(prototype[1..]);
    }
  }

  /**
   * Round trip: a template written in the asset format is parsed back into
   * the same template, whenever no glyph is whitespace.
   */
  lemma ParseFormatPrototype(prototype: seq<Coord>)
    requires GlyphsWritable(prototype)
    ensures ParsePrototype(FormatPrototype(prototype)) == Success(prototype)
  {
    var lines := Lines(FormatPrototype(prototype));
    LinesOfFormat(prototype);
    forall k | 0 <= k < |prototype|
      ensures ParseLine(lines[k]) == Success(prototype[k])
    {
      ParseFormatLine(prototype[k]);
    }
    var r := ParsePrototype(FormatPrototype(prototype));
    assert r.Success?;
    assert r.value == prototype;
  }
}
