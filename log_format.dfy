/** `make_log_format_regex`: a log format such as `<Date> <Time> <Content>`
    turned into the column names and the text of the regular expression that
    splits a log line into those columns. The same function appears in the
    streaming and in the batch parser. Compiling the regex is not modelled;
    the pattern is returned as a string. */
module LogFormat {

  // ---------------------------------------------------------------------
  // re.split(r'(<[^<>]+>)', log_format)

  predicate IsNameChar(c: char) {
    c != '<' && c != '>'
  }

  /** A field: `<`, one or more characters other than `<` and `>`, `>`. */
  predicate IsField(p: string) {
    |p| >= 3 && p[0] == '<' && p[|p| - 1] == '>' && forall i :: 1 <= i < |p| - 1 ==> IsNameChar(p[i])
  }

  /** The end of the run of name characters of `s` starting at `i`. */
  function NameRun(s: string, i: nat): (j: nat)
    requires i <= |s|
    ensures i <= j <= |s|
    decreases |s| - i
  {
    if i < |s| && IsNameChar(s[i]) then NameRun(s, i + 1) else i
  }

  lemma {:induction false} NameRunFacts(s: string, i: nat)
    requires i <= |s|
    ensures forall k :: i <= k < NameRun(s, i) ==> IsNameChar(s[k])
    ensures NameRun(s, i) < |s| ==> !IsNameChar(s[NameRun(s, i)])
    decreases |s| - i
  {
    if i < |s| && IsNameChar(s[i]) {
      NameRunFacts(s, i + 1);
    }
  }

  /** The length of the field `<[^<>]+>` matches at the start of `s`, or 0
      when it does not match there. */
  function FieldLen(s: string): (r: nat)
    ensures r == 0 || 3 <= r <= |s|
  {
    if |s| >= 1 && s[0] == '<' then
      var j := NameRun(s, 1);
      if j > 1 && j < |s| && s[j] == '>' then j + 1 else 0
    else 0
  }

  /** A non-zero field length is the length of a field. */
  lemma FieldLenIsField(s: string)
    requires FieldLen(s) > 0
    ensures IsField(s[..FieldLen(s)])
  {
    NameRunFacts(s, 1);
  }

  function Concat(ps: seq<string>): string {
    if ps == [] then "" else ps[0] + Concat(ps[1..])
  }

  lemma ConcatCons(a: string, ps: seq<string>)
    ensures Concat([a] + ps) == a + Concat(ps)
  {
    assert ([a] + ps)[1..] == ps;
  }

  /** `re.split(r'(<[^<>]+>)', s)`: the text between fields at the even
      places and the fields themselves at the odd places. The regex engine
      finds the leftmost field, so a character where no field starts goes
      to the text in front. Putting the pieces back together gives `s`. */
  function Splitters(s: string): (r: seq<string>)
    ensures |r| >= 1 && Concat(r) == s
    decreases |s|
  {
    if s == [] then [""]
    else
      var k := FieldLen(s);
      if k > 0 then
        var rest := Splitters(s[k..]);
        ConcatCons(s[..k], rest);
        ConcatCons("", [s[..k]] + rest);
        assert s == "" + (s[..k] + s[k..]);
        [""] + ([s[..k]] + rest)
      else
        var rest := Splitters(s[1..]);
        assert rest == [rest[0]] + rest[1..];
        ConcatCons(rest[0], rest[1..]);
        ConcatCons([s[0]] + rest[0], rest[1..]);
        assert s == [s[0]] + s[1..];
        [[s[0]] + rest[0]] + rest[1..]
  }

  /** Every odd piece is a field. */
  lemma {:induction false} SplittersFields(s: string)
    ensures forall k :: 0 <= k < |Splitters(s)| && k % 2 == 1 ==> IsField(Splitters(s)[k])
    decreases |s|
  {
    if s != [] {
      var k := FieldLen(s);
      var r := Splitters(s);
      if k > 0 {
        FieldLenIsField(s);
        SplittersFields(s[k..]);
        var rest := Splitters(s[k..]);
        assert r == [""] + [s[..k]] + rest;
        forall i | 0 <= i < |r| && i % 2 == 1
          ensures IsField(r[i])
        {
          if i > 1 {
            assert r[i] == rest[i - 2];
          }
        }
      } else {
        SplittersFields(s[1..]);
        var rest := Splitters(s[1..]);
        forall i | 0 <= i < |r| && i % 2 == 1
          ensures IsField(r[i])
        {
          assert r[i] == rest[i];
        }
      }
    }
  }

  /** A format without `<` is one piece. */
  lemma {:induction false} SplittersNoField(s: string)
    requires forall i :: 0 <= i < |s| ==> s[i] != '<'
    ensures Splitters(s) == [s]
    decreases |s|
  {
    if s != [] {
      SplittersNoField(s[1..]);
      assert [s[0]] + s[1..] == s;
    }
  }

  // ---------------------------------------------------------------------
  // Column names: splitters[i].strip('<').strip('>')

  /** `s.lstrip(c)` for one character `c`. */
  function LStripCh(s: string, c: char): (r: string)
    ensures |r| <= |s|
  {
    if s != [] && s[0] == c then LStripCh(s[1..], c) else s
  }

  /** `s.rstrip(c)` for one character `c`. */
  function RStripCh(s: string, c: char): (r: string)
    ensures |r| <= |s|
  {
    if s != [] && s[|s| - 1] == c then RStripCh(s[..|s| - 1], c) else s
  }

  /** `s.strip(c)` */
  function StripCh(s: string, c: char): string {
    RStripCh(LStripCh(s, c), c)
  }

  /** The column name the source takes from a piece. */
  function Column(p: string): string {
    StripCh(StripCh(p, '<'), '>')
  }

  /** The column of a field is its name between the brackets. */
  lemma ColumnOfField(p: string)
    requires IsField(p)
    ensures Column(p) == p[1..|p| - 1]
  {
    var name := p[1..|p| - 1];
    assert p[1..] == name + ">";
    assert LStripCh(p[1..], '<') == p[1..];
    assert RStripCh(p[1..], '<') == p[1..];
    assert LStripCh(p[1..], '>') == p[1..];
    var q := p[1..];
    assert q[..|q| - 1] == name;
    assert IsNameChar(p[|p| - 2]) && name[|name| - 1] == p[|p| - 2];
    assert RStripCh(name, '>') == name;
  }

  // ---------------------------------------------------------------------
  // re.sub(' +', r'\s+', splitter)

  /** The regex text every run of spaces becomes: backslash, `s`, `+`. */
  const SpaceRun: string := "\\s+"

  /** `re.sub(' +', r'\s+', s)` */
  function SubSpaces(s: string): string
    decreases |s|
  {
    if s == [] then ""
    else if s[0] == ' ' then SpaceRun + SubSpaces(LStripCh(s[1..], ' '))
    else [s[0]] + SubSpaces(s[1..])
  }

  /** No space survives the substitution. */
  lemma {:induction false} SubSpacesNoSpace(s: string)
    ensures forall i :: 0 <= i < |SubSpaces(s)| ==> SubSpaces(s)[i] != ' '
    decreases |s|
  {
    if s != [] {
      if s[0] == ' ' {
        SubSpacesNoSpace(LStripCh(s[1..], ' '));
      } else {
        SubSpacesNoSpace(s[1..]);
      }
    }
  }

  /** Text without spaces is kept as it is. */
  lemma {:induction false} SubSpacesKeeps(s: string)
    requires forall i :: 0 <= i < |s| ==> s[i] != ' '
    ensures SubSpaces(s) == s
    decreases |s|
  {
    if s != [] {
      SubSpacesKeeps(s[1..]);
      assert [s[0]] + s[1..] == s;
    }
  }

  /** A run of one or more spaces becomes a single `\s+`. */
  lemma {:induction false} SubSpacesRun(n: nat, s: string)
    requires n >= 1 && (s == [] || s[0] != ' ')
    ensures SubSpaces(Spaces(n) + s) == SpaceRun + SubSpaces(s)
  {
    var t := Spaces(n) + s;
    assert t[0] == ' ';
    assert t[1..] == Spaces(n - 1) + s;
    LStripSpaces(n - 1, s);
  }

  function Spaces(n: nat): (r: string)
    ensures |r| == n && forall i :: 0 <= i < n ==> r[i] == ' '
  {
    if n == 0 then "" else " " + Spaces(n - 1)
  }

  lemma {:induction false} LStripSpaces(n: nat, s: string)
    requires s == [] || s[0] != ' '
    ensures LStripCh(Spaces(n) + s, ' ') == s
  {
    if n > 0 {
      LStripSpaces(n - 1, s);
      assert (Spaces(n) + s)[1..] == Spaces(n - 1) + s;
    } else {
      assert Spaces(n) + s == s;
    }
  }

  // ---------------------------------------------------------------------
  // The regex text and the columns

  /** `'(?P<%s>.*?)' % column`: a lazily matched named group. */
  function Group(column: string): string {
    "(?P<" + column + ">.*?)"
  }

  /** What the loop adds for piece `i`. */
  function Piece(ps: seq<string>, i: nat): string
    requires i < |ps|
  {
    if i % 2 == 0 then SubSpaces(ps[i]) else Group(Column(ps[i]))
  }

  /** The regex text for the first `n` pieces. */
  function Body(ps: seq<string>, n: nat): string
    requires n <= |ps|
  {
    if n == 0 then "" else Body(ps, n - 1) + Piece(ps, n - 1)
  }

  /** The columns for the first `n` pieces. */
  function Columns(ps: seq<string>, n: nat): seq<string>
    requires n <= |ps|
  {
    if n == 0 then [] else Columns(ps, n - 1) + (if (n - 1) % 2 == 1 then [Column(ps[n - 1])] else [])
  }

  /** The columns of the first `n` pieces are the names of the fields among
      them, in order. */
  lemma {:induction false} ColumnsAreFields(ps: seq<string>, n: nat)
    requires n <= |ps|
    requires forall k :: 0 <= k < |ps| && k % 2 == 1 ==> IsField(ps[k])
    ensures |Columns(ps, n)| == n / 2
    ensures forall k :: 0 <= k < n / 2 ==> "<" + Columns(ps, n)[k] + ">" == ps[2 * k + 1]
  {
    if n > 0 {
      ColumnsAreFields(ps, n - 1);
      var c := Columns(ps, n - 1);
      if (n - 1) % 2 == 1 {
        var p := ps[n - 1];
        ColumnOfField(p);
        assert "<" + Column(p) + ">" == p;
        assert Columns(ps, n) == c + [Column(p)];
        assert n - 1 == 2 * (n / 2 - 1) + 1;
      }
    }
  }

  /** `make_log_format_regex(log_format)`: the column names and the text of
      the anchored pattern. */
  method MakeLogFormatRegex(logFormat: string) returns (columns: seq<string>, regex: string)
    ensures var ps := Splitters(logFormat);
      |columns| == |ps| / 2 && forall k :: 0 <= k < |columns| ==> "<" + columns[k] + ">" == ps[2 * k + 1]
    ensures regex == "^" + Body(Splitters(logFormat), |Splitters(logFormat)|) + "$"
  {
    var splitters := Splitters(logFormat);
    var body;
    columns, body := BuildRegex(splitters);
    regex := "^" + body + "$";
    assert |columns| == |splitters| / 2 &&
      forall k :: 0 <= k < |columns| ==> "<" + columns[k] + ">" == splitters[2 * k + 1]
    by {
      SplittersFields(logFormat);
      ColumnsAreFields(splitters, |splitters|);
    }
  }

  /** The loop of `make_log_format_regex` over the pieces. */
  method BuildRegex(splitters: seq<string>) returns (columns: seq<string>, body: string)
    ensures columns == Columns(splitters, |splitters|)
    ensures body == Body(splitters, |splitters|)
  {
    columns := [];
    body := "";
    for i := 0 to |splitters|
      invariant body == Body(splitters, i)
      invariant columns == Columns(splitters, i)
    {
      if i % 2 == 0 {
        var splitter := SubSpaces(splitters[i]);
        body := body + splitter;
      } else {
        var column := StripCh(StripCh(splitters[i], '<'), '>');
        body := body + "(?P<" + column + ">.*?)";
        columns := columns + [column];
      }
      assert body == Body(splitters, i) + Piece(splitters, i);
    }
  }

  /** A format without fields gives no columns, and a pattern that is the
      format with its space runs replaced. */
  lemma NoFieldFormat(logFormat: string)
    requires forall i :: 0 <= i < |logFormat| ==> logFormat[i] != '<'
    ensures Columns(Splitters(logFormat), |Splitters(logFormat)|) == []
    ensures Body(Splitters(logFormat), |Splitters(logFormat)|) == SubSpaces(logFormat)
  {
    SplittersNoField(logFormat);
  }
}
