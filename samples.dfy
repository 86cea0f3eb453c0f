/**
 * The recorded trip and the reader of the trip file (src/pages/Index.tsx).
 *
 * The file is plain text: a header line, then one line per sample of the
 * form `timestamp,latitude,longitude,speed`. The reader trims the text,
 * splits it on line feeds, drops the first line and splits every other line
 * on commas, taking the fields by position. Text-to-number conversion
 * (JavaScript's `Number`) is not modelled: it is a parameter.
 */
module Samples {

  datatype Option<T> = None | Some(value: T)

  /** One recorded observation: seconds, degrees, degrees, km/h. */
  datatype Sample = Sample(timestamp: real, latitude: real, longitude: real, speed: real)

  /**
   * The characters `String.prototype.trim` removes: ECMAScript's WhiteSpace
   * (tab, vertical tab, form feed, the byte order mark and the space
   * separators) and LineTerminator (LF, CR, U+2028, U+2029).
   */
  predicate IsWhitespace(c: char) {
    c == '\t' || c == '\n' || c == '\U{000B}' || c == '\U{000C}' || c == '\r'
    || c == ' ' || c == '\U{00A0}' || c == '\U{1680}'
    || ('\U{2000}' <= c <= '\U{200A}')
    || c == '\U{2028}' || c == '\U{2029}' || c == '\U{202F}' || c == '\U{205F}'
    || c == '\U{3000}' || c == '\U{FEFF}'
  }

  /** How many whitespace characters open `s`. */
  function LeadingWhitespace(s: string): (n: nat)
    ensures n <= |s|
    ensures forall i :: 0 <= i < n ==> IsWhitespace(s[i])
    ensures n < |s| ==> !IsWhitespace(s[n])
  {
    if s != [] && IsWhitespace(s[0]) then 1 + LeadingWhitespace(s[1..]) else 0
  }

  /** How many whitespace characters close `s`. */
  function TrailingWhitespace(s: string): (n: nat)
    ensures n <= |s|
    ensures forall i :: |s| - n <= i < |s| ==> IsWhitespace(s[i])
    ensures n < |s| ==> !IsWhitespace(s[|s| - 1 - n])
  {
    if s != [] && IsWhitespace(s[|s| - 1]) then 1 + TrailingWhitespace(s[..|s| - 1]) else 0
  }

  /**
   * `text.trim()`: the longest infix of `s` that neither starts nor ends with
   * whitespace, everything around it being whitespace.
   */
  function Trim(s: string): (t: string)
    ensures LeadingWhitespace(s) + |t| <= |s|
    ensures t == s[LeadingWhitespace(s)..LeadingWhitespace(s) + |t|]
    ensures forall i :: LeadingWhitespace(s) + |t| <= i < |s| ==> IsWhitespace(s[i])
    ensures t != [] ==> !IsWhitespace(t[0]) && !IsWhitespace(t[|t| - 1])
  {
    var rest := s[LeadingWhitespace(s)..];
    rest[..|rest| - TrailingWhitespace(rest)]
  }

  /** Trimming twice is trimming once. */
  lemma TrimIdempotent(s: string)
    ensures Trim(Trim(s)) == Trim(s)
  {
  }

  /** Where the first `c` stands in `s`. */
  function IndexOf(s: string, c: char): (k: nat)
    requires c in s
    ensures k < |s| && s[k] == c && c !in s[..k]
  {
    if s[0] == c then 0 else 1 + IndexOf(s[1..], c)
  }

  /**
   * `s.split(sep)` for a one-character separator: the pieces between the
   * separators; there is at least one piece and no piece holds a separator.
   */
  function Split(s: string, sep: char): (pieces: seq<string>)
    ensures |pieces| >= 1
    ensures forall i :: 0 <= i < |pieces| ==> sep !in pieces[i]
    decreases |s|
  {
    if sep !in s then [s]
    else
      var k := IndexOf(s, sep);
      [s[..k]] + Split(s[k + 1..], sep)
  }

  /** There is one piece more than there are separators. */
  lemma {:induction false} SplitCount(s: string, sep: char)
    ensures |Split(s, sep)| == multiset(s)[sep] + 1
    decreases |s|
  {
    if sep in s {
      var k := IndexOf(s, sep);
      SplitCount(s[k + 1..], sep);
      assert s == s[..k] + [sep] + s[k + 1..];
    }
  }

  /** `pieces.join(sep)`: the pieces with one separator between neighbours. */
  function Join(pieces: seq<string>, sep: char): string {
    if pieces == [] then []
    else if |pieces| == 1 then pieces[0]
    else pieces[0] + [sep] + Join(pieces[1..], sep)
  }

  /** Splitting loses nothing: joining the pieces gives the text back. */
  lemma {:induction false} SplitThenJoin(s: string, sep: char)
    ensures Join(Split(s, sep), sep) == s
    decreases |s|
  {
    if sep in s {
      var k := IndexOf(s, sep);
      var rest := Split(s[k + 1..], sep);
      SplitThenJoin(s[k + 1..], sep);
      assert Split(s, sep)[1..] == rest;
      assert s == s[..k] + [sep] + s[k + 1..];
    }
  }

  /** Joining separator-free pieces and splitting again gives the pieces back. */
  lemma {:induction false} JoinThenSplit(pieces: seq<string>, sep: char)
    requires pieces != []
    requires forall i :: 0 <= i < |pieces| ==> sep !in pieces[i]
    ensures Split(Join(pieces, sep), sep) == pieces
  {
    if |pieces| > 1 {
      var p := pieces[0];
      var tail := Join(pieces[1..], sep);
      var s := p + [sep] + tail;
      JoinThenSplit(pieces[1..], sep);
      assert s[|p|] == sep && s[..|p|] == p && s[|p| + 1..] == tail;
      assert IndexOf(s, sep) == |p|;
    }
  }

  /** `text.trim().split('\n')`: the lines of the file. */
  function Lines(text: string): (lines: seq<string>)
    ensures |lines| == multiset(Trim(text))['\n'] + 1
  {
    SplitCount(Trim(text), '\n');
    Split(Trim(text), '\n')
  }

  /** Positional access to a split line; `None` stands for JavaScript's `undefined`. */
  function FieldAt(fields: seq<string>, i: nat): Option<string> {
    if i < |fields| then Some(fields[i]) else None
  }

  /**
   * One data line: `const [timestamp, latitude, longitude, speed] = line.split(',')`,
   * each field passed through `toNumber`; extra fields are ignored, missing
   * ones reach `toNumber` as `None`.
   */
  function ParseLine(line: string, toNumber: Option<string> -> real): Sample {
    var fields := Split(line, ',');
    Sample(toNumber(FieldAt(fields, 0)), toNumber(FieldAt(fields, 1)),
           toNumber(FieldAt(fields, 2)), toNumber(FieldAt(fields, 3)))
  }

  /** `rows.map(parse)`: one sample per row, in row order. */
  function ParseRows(rows: seq<string>, toNumber: Option<string> -> real): (samples: seq<Sample>)
    ensures |samples| == |rows|
    ensures forall i :: 0 <= i < |rows| ==> samples[i] == ParseLine(rows[i], toNumber)
  {
    if rows == [] then [] else [ParseLine(rows[0], toNumber)] + ParseRows(rows[1..], toNumber)
  }

  /**
   * The whole file: every line but the first becomes one sample, so there
   * are as many samples as line feeds inside the trimmed text.
   */
  function ParseCsv(text: string, toNumber: Option<string> -> real): (samples: seq<Sample>)
    ensures |samples| == |Lines(text)| - 1 == multiset(Trim(text))['\n']
    ensures forall i :: 0 <= i < |samples| ==> samples[i] == ParseLine(Lines(text)[i + 1], toNumber)
  {
    ParseRows(Lines(text)[1..], toNumber)
  }

  /** The fields of a data line are read by position, whatever their number. */
  lemma ParseLinePositional(fields: seq<string>, toNumber: Option<string> -> real)
    requires fields != []
    requires forall i :: 0 <= i < |fields| ==> ',' !in fields[i]
    ensures ParseLine(Join(fields, ','), toNumber)
         == Sample(toNumber(FieldAt(fields, 0)), toNumber(FieldAt(fields, 1)),
                   toNumber(FieldAt(fields, 2)), toNumber(FieldAt(fields, 3)))
  {
    JoinThenSplit(fields, ',');
  }

  /** A trimmed text made of separator-free lines has exactly those lines. */
  lemma LinesOfJoin(lines: seq<string>)
    requires lines != []
    requires forall i :: 0 <= i < |lines| ==> '\n' !in lines[i]
    requires Trim(Join(lines, '\n')) == Join(lines, '\n')
    ensures Lines(Join(lines, '\n')) == lines
  {
    JoinThenSplit(lines, '\n');
  }

  /**
   * A file that, once trimmed, is a header line followed by data rows yields
   * exactly one sample per data row; the header is never read. Whitespace
   * around the text, such as a final line feed or CRLF, is trimmed away first.
   */
  lemma ParseCsvSkipsHeader(text: string, header: string, rows: seq<string>, toNumber: Option<string> -> real)
    requires '\n' !in header
    requires forall i :: 0 <= i < |rows| ==> '\n' !in rows[i]
    requires Trim(text) == Join([header] + rows, '\n')
    ensures ParseCsv(text, toNumber) == ParseRows(rows, toNumber)
  {
    var lines := [header] + rows;
    assert forall i :: 0 <= i < |lines| ==> '\n' !in lines[i];
    JoinThenSplit(lines, '\n');
    assert Lines(text) == lines;
    assert Lines(text)[1..] == rows;
    assert ParseCsv(text, toNumber) == ParseRows(Lines(text)[1..], toNumber);
  }
}
