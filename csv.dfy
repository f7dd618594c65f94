/** The CSV text every export builds:
    `rows.map((r) => r.map((v) => `"${escape(v)}"`).join(",")).join("\n")`
    with `escape(v) = String(v).replace(/"/g, '""')`. Every field is quoted and its
    quotes doubled, fields are joined by ',' and rows by '\n'. A reader of that format
    is given alongside, and the text is shown to read back as the rows it was made from. */
module Csv {
  import opened Common

  /** `String(v).replace(/"/g, '""')`: every double quote doubled, everything else kept. */
  function Escape(v: string): (r: string)
    ensures |r| >= |v|
    ensures '"' !in v ==> r == v
  {
    if v == [] then []
    else (if v[0] == '"' then "\"\"" else [v[0]]) + Escape(v[1..])
  }

  /** One field as written: `"` + escaped text + `"`. */
  function Quote(v: string): (r: string)
    ensures |r| >= 2 && r[0] == '"' && r[|r| - 1] == '"'
  {
    "\"" + Escape(v) + "\""
  }

  /** `[header, ...items.map(row)]`: the header, then one row per item, in order; every
      row as wide as the header when each item's row is. */
  function Table<T(!new)>(header: seq<string>, items: seq<T>, row: T -> seq<string>): (rows: seq<seq<string>>)
    ensures |rows| == |items| + 1
    ensures rows[0] == header
    ensures forall i :: 0 <= i < |items| ==> rows[i + 1] == row(items[i])
    ensures (forall x :: |row(x)| == |header|) ==> forall i :: 0 <= i < |rows| ==> |rows[i]| == |header|
  {
    [header] + seq(|items|, i requires 0 <= i < |items| => row(items[i]))
  }

  /** `r.map(quote).join(",")`. */
  function Line(fields: seq<string>): string {
    if fields == [] then ""
    else if |fields| == 1 then Quote(fields[0])
    else Quote(fields[0]) + "," + Line(fields[1..])
  }

  /** `rows.map(line).join("\n")`. */
  function Text(rows: seq<seq<string>>): string {
    if rows == [] then ""
    else if |rows| == 1 then Line(rows[0])
    else Line(rows[0]) + "\n" + Text(rows[1..])
  }

  // ---------------------------------------------------------------------------
  // Reading the format back.

  /** Reads the body of a quoted field, just after its opening quote: `""` stands for one
      quote and a lone `"` closes the field. Gives the field and what follows the closing quote. */
  function ReadQuoted(s: string): (r: Option<(string, string)>)
    ensures r.Some? ==> |r.value.1| < |s|
    decreases |s|
  {
    if s == [] then None
    else if s[0] == '"' then
      if |s| >= 2 && s[1] == '"' then
        match ReadQuoted(s[2..])
        case None => None
        case Some((f, rest)) => Some(("\"" + f, rest))
      else Some(("", s[1..]))
    else
      match ReadQuoted(s[1..])
      case None => None
      case Some((f, rest)) => Some(([s[0]] + f, rest))
  }

  /** Reads the quoted fields of one line up to the end of the text or a '\n', which is left in place. */
  function ReadLine(s: string): (r: Option<(seq<string>, string)>)
    ensures r.Some? ==> |r.value.1| < |s|
    decreases |s|
  {
    if s == [] || s[0] != '"' then None
    else
      match ReadQuoted(s[1..])
      case None => None
      case Some((f, rest)) =>
        if rest == [] then Some(([f], rest))
        else if rest[0] == ',' then
          match ReadLine(rest[1..])
          case None => None
          case Some((fs, rest')) => Some(([f] + fs, rest'))
        else if rest[0] == '\n' then Some(([f], rest))
        else None
  }

  /** Reads a whole CSV text into its rows. */
  function ReadRows(s: string): Option<seq<seq<string>>>
    decreases |s|
  {
    match ReadLine(s)
    case None => None
    case Some((fields, rest)) =>
      if rest == [] then Some([fields])
      else
        match ReadRows(rest[1..])
        case None => None
        case Some(more) => Some([fields] + more)
  }

  /** An escaped field followed by its closing quote reads back as the field, provided what
      follows does not itself start with a quote. */
  lemma {:induction false} ReadQuotedEscape(v: string, t: string)
    requires t == [] || t[0] != '"'
    ensures ReadQuoted(Escape(v) + "\"" + t) == Some((v, t))
  {
    var s := Escape(v) + "\"" + t;
    if v == [] {
      assert s == "\"" + t;
    } else {
      ReadQuotedEscape(v[1..], t);
      var s' := Escape(v[1..]) + "\"" + t;
      ReadQuotedStep(v[0], s');
      EscapeCons(v, t);
      ConsSplit(v);
    }
  }

  /** Escaping a field character by character: a quote becomes two, anything else stays. */
  lemma EscapeCons(v: string, t: string)
    requires v != []
    ensures v[0] == '"' ==> Escape(v) + "\"" + t == "\"\"" + (Escape(v[1..]) + "\"" + t)
    ensures v[0] != '"' ==> Escape(v) + "\"" + t == [v[0]] + (Escape(v[1..]) + "\"" + t)
  {
    var head := if v[0] == '"' then "\"\"" else [v[0]];
    var e := Escape(v[1..]);
    assert Escape(v) == head + e;
    assert head + e + "\"" + t == head + (e + "\"" + t);
  }

  /** One character of a field body: a doubled quote stands for one quote, any other
      character for itself. */
  lemma ReadQuotedStep(c: char, s: string)
    ensures c == '"' ==>
      ReadQuoted("\"\"" + s) == match ReadQuoted(s) case None => None case Some((f, rest)) => Some(("\"" + f, rest))
    ensures c != '"' ==>
      ReadQuoted([c] + s) == match ReadQuoted(s) case None => None case Some((f, rest)) => Some(([c] + f, rest))
  {
    assert ("\"\"" + s)[2..] == s;
    assert ([c] + s)[1..] == s;
  }

  /** The first field of a line: its quoted text, then the rest of the line. */
  lemma ReadLineHead(v: string, tail: string)
    requires tail == [] || tail[0] == ',' || tail[0] == '\n'
    ensures var s := Quote(v) + tail;
      s[0] == '"' && ReadQuoted(s[1..]) == Some((v, tail))
  {
    var s := Quote(v) + tail;
    assert s == "\"" + (Escape(v) + "\"" + tail);
    ReadQuotedEscape(v, tail);
    assert s[1..] == Escape(v) + "\"" + tail;
  }

  /** How `ReadLine` continues once the first field has been read. */
  lemma ReadLineAfterField(s: string, v: string, tail: string)
    requires s != [] && s[0] == '"' && ReadQuoted(s[1..]) == Some((v, tail))
    ensures tail == [] ==> ReadLine(s) == Some(([v], tail))
    ensures tail != [] && tail[0] == '\n' ==> ReadLine(s) == Some(([v], tail))
    ensures tail != [] && tail[0] == ',' ==>
      ReadLine(s) == match ReadLine(tail[1..]) case None => None case Some((fs, r)) => Some(([v] + fs, r))
  {
  }

  /** A line of one field followed by the end of the text or a line break. */
  lemma ReadLineSingle(v: string, t: string)
    requires t == [] || t[0] == '\n'
    ensures ReadLine(Line([v]) + t) == Some(([v], t))
  {
    ReadLineHead(v, t);
    ReadLineAfterField(Quote(v) + t, v, t);
  }

  /** A field followed by a comma: reading goes on with what follows the comma. */
  lemma ReadLineComma(v: string, rest: string)
    ensures ReadLine(Quote(v) + ("," + rest))
      == match ReadLine(rest) case None => None case Some((fs, r)) => Some(([v] + fs, r))
  {
    var tail := "," + rest;
    ReadLineHead(v, tail);
    ReadLineAfterField(Quote(v) + tail, v, tail);
    assert tail[1..] == rest;
  }

  /** A line of two or more fields: the first field, a comma, then the line of the others. */
  lemma ReadLineCons(fields: seq<string>, t: string)
    requires |fields| > 1
    ensures ReadLine(Line(fields) + t)
      == match ReadLine(Line(fields[1..]) + t) case None => None case Some((fs, r)) => Some(([fields[0]] + fs, r))
  {
    var rest := Line(fields[1..]) + t;
    assert Line(fields) + t == Quote(fields[0]) + ("," + rest);
    ReadLineComma(fields[0], rest);
  }

  /** A line of one or more fields reads back as those fields when it is followed by the
      end of the text or a line break. */
  lemma {:induction false} ReadLineRoundTrip(fields: seq<string>, t: string)
    requires fields != []
    requires t == [] || t[0] == '\n'
    ensures ReadLine(Line(fields) + t) == Some((fields, t))
  {
    if |fields| == 1 {
      ReadLineSingle(fields[0], t);
      assert fields == [fields[0]];
    } else {
      ReadLineCons(fields, t);
      ReadLineRoundTrip(fields[1..], t);
      assert [fields[0]] + fields[1..] == fields;
    }
  }

  /** How `ReadRows` continues once the first line has been read. */
  lemma ReadRowsAfterLine(s: string, fields: seq<string>, rest: string)
    requires ReadLine(s) == Some((fields, rest))
    ensures rest == [] ==> ReadRows(s) == Some([fields])
    ensures rest != [] ==>
      ReadRows(s) == match ReadRows(rest[1..]) case None => None case Some(more) => Some([fields] + more)
  {
  }

  /** Round trip: the text of one or more non-empty rows reads back as exactly those rows,
      so no field's quotes, commas or line breaks leak into its neighbours. */
  lemma {:induction false} ReadRowsRoundTrip(rows: seq<seq<string>>)
    requires rows != []
    requires forall i :: 0 <= i < |rows| ==> rows[i] != []
    ensures ReadRows(Text(rows)) == Some(rows)
  {
    if |rows| == 1 {
      ReadLineRoundTrip(rows[0], "");
      assert Line(rows[0]) + "" == Text(rows);
      ReadRowsAfterLine(Text(rows), rows[0], "");
      assert rows == [rows[0]];
    } else {
      forall i | 0 <= i < |rows[1..]|
        ensures rows[1..][i] != []
      {
        assert rows[1..][i] == rows[i + 1];
      }
      ReadRowsRoundTrip(rows[1..]);
      ReadRowsStep(rows);
    }
  }

  /** A first row in front of rows that read back: the whole text reads back. */
  lemma ReadRowsStep(rows: seq<seq<string>>)
    requires |rows| > 1 && rows[0] != []
    requires ReadRows(Text(rows[1..])) == Some(rows[1..])
    ensures ReadRows(Text(rows)) == Some(rows)
  {
    var t := "\n" + Text(rows[1..]);
    TextCons(rows);
    ReadLineRoundTrip(rows[0], t);
    ReadRowsAfterLine(Text(rows), rows[0], t);
    ConsSplit(rows);
  }

  /** The text of two or more rows: the first line, a line break, then the other rows. */
  lemma TextCons(rows: seq<seq<string>>)
    requires |rows| > 1
    ensures Text(rows) == Line(rows[0]) + ("\n" + Text(rows[1..]))
    ensures ("\n" + Text(rows[1..]))[1..] == Text(rows[1..])
  {
  }

  lemma ConsSplit<T>(s: seq<T>)
    requires s != []
    ensures [s[0]] + s[1..] == s
  {
  }

  /** Distinct tables give distinct texts. */
  lemma TextInjective(a: seq<seq<string>>, b: seq<seq<string>>)
    requires a != [] && b != []
    requires forall i :: 0 <= i < |a| ==> a[i] != []
    requires forall i :: 0 <= i < |b| ==> b[i] != []
    requires Text(a) == Text(b)
    ensures a == b
  {
    ReadRowsRoundTrip(a);
    ReadRowsRoundTrip(b);
  }
}
