/** Text utilities with JavaScript's semantics: `String.prototype.split` and
    `Array.prototype.join` on a one-character separator, and the shape of a
    delimited table built by joining cells and lines without quoting. */
module Text {

  /** Number of occurrences of `c` in `s`. */
  function Count(s: string, c: char): (n: nat)
    ensures n <= |s|
    ensures n == 0 <==> c !in s
  {
    if s == [] then 0 else (if s[0] == c then 1 else 0) + Count(s[1..], c)
  }

  lemma {:induction false} CountAppend(a: string, b: string, c: char)
    ensures Count(a + b, c) == Count(a, c) + Count(b, c)
  {
    if a != [] {
      assert (a + b)[1..] == a[1..] + b;
      CountAppend(a[1..], b, c);
    } else {
      assert a + b == b;
    }
  }

  /** `parts.join(sep)`: the empty array joins to "". The text starts with
      the first piece; with two or more pieces, a separator follows it. */
  function Join(parts: seq<string>, sep: char): (s: string)
    ensures |parts| == 0 ==> s == ""
    ensures |parts| >= 1 ==> parts[0] <= s
    ensures |parts| >= 2 ==> |s| > |parts[0]| && s[|parts[0]|] == sep
  {
    if |parts| == 0 then ""
    else if |parts| == 1 then parts[0]
    else parts[0] + [sep] + Join(parts[1..], sep)
  }

  /** `s.split(sep)`: the pieces between separators, at least one piece
      (`"".split(",")` is `[""]`), none of them holding the separator. */
  function Split(s: string, sep: char): (parts: seq<string>)
    ensures |parts| >= 1
    ensures forall k :: 0 <= k < |parts| ==> sep !in parts[k]
  {
    if s == [] then [""]
    else
      var rest := Split(s[1..], sep);
      if s[0] == sep then [""] + rest
      else [[s[0]] + rest[0]] + rest[1..]
  }

  /** Total number of occurrences of `c` across all pieces. */
  function SumCount(parts: seq<string>, c: char): (n: nat)
    ensures n == 0 <==> forall k :: 0 <= k < |parts| ==> c !in parts[k]
  {
    if parts == [] then 0 else Count(parts[0], c) + SumCount(parts[1..], c)
  }

  /** Joining what was split gives back the original text. */
  lemma {:induction false} JoinSplit(s: string, sep: char)
    ensures Join(Split(s, sep), sep) == s
  {
    if s != [] {
      var rest := Split(s[1..], sep);
      JoinSplit(s[1..], sep);
      if s[0] == sep {
        assert Split(s, sep)[1..] == rest;
        assert s == [s[0]] + s[1..];
      } else {
        var parts := Split(s, sep);
        assert parts[1..] == rest[1..];
        if |rest| == 1 {
          assert Join(parts, sep) == [s[0]] + rest[0];
        } else {
          assert Join(rest, sep) == rest[0] + [sep] + Join(rest[1..], sep);
          assert Join(parts, sep) == [s[0]] + rest[0] + [sep] + Join(rest[1..], sep);
        }
        assert s == [s[0]] + s[1..];
      }
    }
  }

  /** Text without the separator splits into itself alone. */
  lemma {:induction false} SplitWithoutSeparator(p: string, sep: char)
    requires sep !in p
    ensures Split(p, sep) == [p]
  {
    if p != [] {
      SplitWithoutSeparator(p[1..], sep);
      assert [p[0]] + p[1..] == p;
    }
  }

  /** A separator-free prefix followed by the separator becomes the first piece. */
  lemma {:induction false} SplitAfterPiece(p: string, t: string, sep: char)
    requires sep !in p
    ensures Split(p + [sep] + t, sep) == [p] + Split(t, sep)
  {
    if p == [] {
      assert p + [sep] + t == [sep] + t;
      assert ([sep] + t)[1..] == t;
    } else {
      var s := p + [sep] + t;
      assert s[1..] == p[1..] + [sep] + t;
      SplitAfterPiece(p[1..], t, sep);
      assert [p[0]] + p[1..] == p;
    }
  }

  /** Splitting what was joined gives back the pieces, provided no piece
      holds the separator. */
  lemma {:induction false} SplitJoin(parts: seq<string>, sep: char)
    requires |parts| >= 1
    requires forall k :: 0 <= k < |parts| ==> sep !in parts[k]
    ensures Split(Join(parts, sep), sep) == parts
  {
    if |parts| == 1 {
      SplitWithoutSeparator(parts[0], sep);
    } else {
      SplitJoin(parts[1..], sep);
      SplitAfterPiece(parts[0], Join(parts[1..], sep), sep);
      assert [parts[0]] + parts[1..] == parts;
    }
  }

  /** The number of pieces is one more than the number of separators. */
  lemma {:induction false} SplitLength(s: string, sep: char)
    ensures |Split(s, sep)| == Count(s, sep) + 1
  {
    if s != [] {
      SplitLength(s[1..], sep);
    }
  }

  /** Separators in a joined text: one between each two pieces, plus those
      inside the pieces. */
  lemma {:induction false} CountJoinSeparator(parts: seq<string>, sep: char)
    requires |parts| >= 1
    ensures Count(Join(parts, sep), sep) == |parts| - 1 + SumCount(parts, sep)
  {
    if |parts| > 1 {
      CountJoinSeparator(parts[1..], sep);
      CountAppend(parts[0] + [sep], Join(parts[1..], sep), sep);
      CountAppend(parts[0], [sep], sep);
      assert Count([sep], sep) == 1;
    }
  }

  /** Any other character in a joined text comes from the pieces. */
  lemma {:induction false} CountJoinOther(parts: seq<string>, sep: char, c: char)
    requires c != sep
    ensures Count(Join(parts, sep), c) == SumCount(parts, c)
  {
    if |parts| == 1 {
      assert parts[1..] == [];
    } else if |parts| > 1 {
      CountJoinOther(parts[1..], sep, c);
      CountAppend(parts[0] + [sep], Join(parts[1..], sep), c);
      CountAppend(parts[0], [sep], c);
      assert Count([sep], c) == 0;
    }
  }

  /** A cell that survives unquoted serialisation: no field or line separator. */
  predicate PlainCell(s: string)
  {
    ',' !in s && '\n' !in s
  }

  /** `rows.map(r => r.join(',')).join('\n')`: the text begins with the
      first row's cells joined by `,`, and is empty only for no rows or a
      single row joining to "". */
  function Table(rows: seq<seq<string>>): (text: string)
    ensures |rows| == 0 ==> text == ""
    ensures |rows| >= 1 ==> Join(rows[0], ',') <= text
    ensures |rows| >= 2 ==> '\n' in text
  {
    Join(seq(|rows|, k requires 0 <= k < |rows| => Join(rows[k], ',')), '\n')
  }

  /** Reading a table back: split into lines, every line into fields. */
  function ReadTable(text: string): (rows: seq<seq<string>>)
    ensures |rows| == |Split(text, '\n')|
  {
    var lines := Split(text, '\n');
    seq(|lines|, k requires 0 <= k < |lines| => Split(lines[k], ','))
  }

  /** The text reads back as exactly `lines` lines of exactly `width` fields. */
  predicate Rectangular(text: string, lines: nat, width: nat)
  {
    var rows := ReadTable(text);
    |rows| == lines && forall k :: 0 <= k < |rows| ==> |rows[k]| == width
  }

  /** A table whose cells are all plain reads back as its own rows. */
  lemma {:induction false} ReadTableOfPlain(rows: seq<seq<string>>)
    requires |rows| >= 1
    requires forall k :: 0 <= k < |rows| ==> |rows[k]| >= 1
    requires forall k, j :: 0 <= k < |rows| && 0 <= j < |rows[k]| ==> PlainCell(rows[k][j])
    ensures ReadTable(Table(rows)) == rows
  {
    var lines := seq(|rows|, k requires 0 <= k < |rows| => Join(rows[k], ','));
    forall k | 0 <= k < |rows|
      ensures '\n' !in lines[k]
      ensures Split(lines[k], ',') == rows[k]
    {
      CountJoinOther(rows[k], ',', '\n');
      SplitJoin(rows[k], ',');
    }
    SplitJoin(lines, '\n');
  }

  /** A table's text has one line break between each two rows, plus those
      inside its cells; so exactly one per row boundary when every cell is
      plain. */
  lemma {:induction false} TableLineBreaks(rows: seq<seq<string>>)
    requires |rows| >= 1
    ensures Count(Table(rows), '\n') >= |rows| - 1
    ensures (forall k, j :: 0 <= k < |rows| && 0 <= j < |rows[k]| ==> PlainCell(rows[k][j])) ==>
      Count(Table(rows), '\n') == |rows| - 1
  {
    var lines := seq(|rows|, k requires 0 <= k < |rows| => Join(rows[k], ','));
    CountJoinSeparator(lines, '\n');
    if forall k, j :: 0 <= k < |rows| && 0 <= j < |rows[k]| ==> PlainCell(rows[k][j]) {
      forall k | 0 <= k < |lines|
        ensures '\n' !in lines[k]
      {
        CountJoinOther(rows[k], ',', '\n');
      }
    }
  }

  /** Unquoted serialisation is faithful exactly when every cell is plain:
      `n` rows of `width` cells read back as `n` lines of `width` fields if
      and only if no cell holds a `,` or a line break. */
  lemma {:induction false} RectangularIffPlain(rows: seq<seq<string>>, width: nat)
    requires |rows| >= 1 && width >= 1
    requires forall k :: 0 <= k < |rows| ==> |rows[k]| == width
    ensures Rectangular(Table(rows), |rows|, width) <==>
            forall k, j :: 0 <= k < |rows| && 0 <= j < width ==> PlainCell(rows[k][j])
  {
    var text := Table(rows);
    var lines := seq(|rows|, k requires 0 <= k < |rows| => Join(rows[k], ','));
    if forall k, j :: 0 <= k < |rows| && 0 <= j < width ==> PlainCell(rows[k][j]) {
      ReadTableOfPlain(rows);
    }
    if Rectangular(text, |rows|, width) {
      SplitLength(text, '\n');
      CountJoinSeparator(lines, '\n');
      assert SumCount(lines, '\n') == 0;
      SplitJoin(lines, '\n');
      forall k, j | 0 <= k < |rows| && 0 <= j < width
        ensures PlainCell(rows[k][j])
      {
        CountJoinOther(rows[k], ',', '\n');
        assert '\n' !in lines[k];
        assert SumCount(rows[k], '\n') == 0;
        assert ReadTable(text)[k] == Split(lines[k], ',');
        SplitLength(lines[k], ',');
        CountJoinSeparator(rows[k], ',');
        assert SumCount(rows[k], ',') == 0;
      }
    }
  }
}
