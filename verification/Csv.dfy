/**
 `format_csv` (packs/security/encoders/_helpers.py:41-52) against a reader of one record by
 section 2 of RFC 4180, rules 5 to 7: fields may be quoted, quoted fields may hold any character,
 and a quote inside them is written twice.
 */
module Csv {
  import opened Common

  predicate Special(c: char) { c == ',' || c == '"' || c == '\r' || c == '\n' }

  /** A value that is neither missing nor a string is known by what `str()` prints for it. */
  datatype Value = Missing | Text(text: string) | Other(printed: string)

  /** What a reader should get back: a missing value reads as the empty string. */
  function Plain(v: Value): string {
    match v
    case Missing => ""
    case Text(s) => s
    case Other(s) => s
  }

  function Plains(values: seq<Value>): seq<string> { MapSeq(Plain, values) }

  function Doubled(s: string): string {
    if s == "" then "" else (if s[0] == '"' then ['"', '"'] else [s[0]]) + Doubled(s[1..])
  }

  predicate NeedsQuotes(s: string) { ',' in s || '"' in s }

  function Render(v: Value): string {
    match v
    case Missing => ""
    case Text(s) => if NeedsQuotes(s) then ['"'] + Doubled(s) + ['"'] else s
    case Other(s) => s
  }

  /** `",".join(...)` */
  function Join(fields: seq<string>): string {
    if fields == [] then ""
    else if |fields| == 1 then fields[0]
    else fields[0] + [','] + Join(fields[1..])
  }

  function Format(values: seq<Value>): string { Join(MapSeq(Render, values)) }

  /** `text.replace('"', '""')` */
  method DoubleQuotes(s: string) returns (r: string)
    ensures r == Doubled(s)
  {
    r := "";
    for i := |s| downto 0
      invariant r == Doubled(s[i..])
    {
      assert s[i..][1..] == s[i + 1..];
      r := (if s[i] == '"' then ['"', '"'] else [s[i]]) + r;
    }
    assert s[0..] == s;
  }

  /** `format_csv` */
  method FormatCsv(values: seq<Value>) returns (line: string)
    ensures line == Format(values)
  {
    var rendered: seq<string> := [];
    for i := 0 to |values|
      invariant rendered == MapSeq(Render, values[..i])
    {
      match values[i] {
        case Missing =>
          rendered := rendered + [""];
        case Text(s) =>
          if NeedsQuotes(s) {
            var escaped := DoubleQuotes(s);
            rendered := rendered + [['"'] + escaped + ['"']];
          } else {
            rendered := rendered + [s];
          }
        case Other(s) =>
          rendered := rendered + [s];
      }
    }
    assert values[..|values|] == values;
    line := Join(rendered);
  }

  // ---------------------------------------------------------------- the reader

  /** The text of a quoted field after its opening quote, and what follows its closing quote. */
  function ReadQuoted(s: string): Option<(string, string)> {
    if s == "" then None
    else if s[0] != '"' then Push(s[0], ReadQuoted(s[1..]))
    else if |s| > 1 && s[1] == '"' then Push('"', ReadQuoted(s[2..]))
    else Some(("", s[1..]))
  }

  function Push(c: char, r: Option<(string, string)>): Option<(string, string)> {
    if r.None? then None else Some(([c] + r.value.0, r.value.1))
  }

  /** The text of an unquoted field and what follows it. */
  function ReadBare(s: string): (r: (string, string))
    ensures r.0 + r.1 == s
  {
    if s == "" || Special(s[0]) then ("", s)
    else
      var (t, rest) := ReadBare(s[1..]);
      ([s[0]] + t, rest)
  }

  /** One field: its text and the rest of the line. */
  function ReadField(s: string): (r: Option<(string, string)>)
    ensures r.Some? ==> |r.value.1| <= |s|
  {
    if s != "" && s[0] == '"' then
      QuotedShorter(s[1..]);
      ReadQuoted(s[1..])
    else Some(ReadBare(s))
  }

  lemma {:induction false} QuotedShorter(s: string)
    ensures ReadQuoted(s).Some? ==> |ReadQuoted(s).value.1| <= |s|
  {
    if s != "" {
      if s[0] != '"' {
        QuotedShorter(s[1..]);
      } else if |s| > 1 && s[1] == '"' {
        QuotedShorter(s[2..]);
      }
    }
  }

  /** The fields of a line, or `None` when it is not one well-formed record. */
  function ReadRecord(s: string): Option<seq<string>>
    decreases |s|
  {
    var field := ReadField(s);
    if field.None? then None
    else if field.value.1 == "" then Some([field.value.0])
    else if field.value.1[0] != ',' then None
    else
      var rest := ReadRecord(field.value.1[1..]);
      if rest.None? then None else Some([field.value.0] + rest.value)
  }

  /** A string is quoted only if it must be: otherwise it is printed as it stands. */
  lemma {:induction false} QuotedIff(s: string)
    ensures ',' !in s && '"' !in s ==> Render(Text(s)) == s
    ensures ',' in s || '"' in s ==> |Render(Text(s))| >= |s| + 2 && Render(Text(s))[0] == '"'
  {
    DoubledLonger(s);
  }

  lemma {:induction false} DoubledLonger(s: string)
    ensures |Doubled(s)| >= |s|
  {
    if s != "" {
      DoubledLonger(s[1..]);
    }
  }

  // ---------------------------------------------------------------- round trip

  /** What may follow a field: nothing, or a comma and the next fields. */
  predicate Ends(tail: string) { tail == "" || tail[0] == ',' }

  lemma {:induction false} QuotedRoundTrip(s: string, tail: string)
    requires Ends(tail)
    ensures ReadQuoted(Doubled(s) + ['"'] + tail) == Some((s, tail))
  {
    var line := Doubled(s) + ['"'] + tail;
    if s == "" {
      assert line[1..] == tail;
    } else {
      QuotedRoundTrip(s[1..], tail);
      var rest := Doubled(s[1..]) + ['"'] + tail;
      if s[0] == '"' {
        assert line == ['"', '"'] + rest;
        assert line[2..] == rest;
      } else {
        assert line == [s[0]] + rest;
        assert line[1..] == rest;
      }
      assert [s[0]] + s[1..] == s;
    }
  }

  predicate Bare(s: string) { forall i :: 0 <= i < |s| ==> !Special(s[i]) }

  lemma {:induction false} BareCons(s: string)
    requires s != ""
    ensures Bare(s) <==> !Special(s[0]) && Bare(s[1..])
  {
    assert forall i :: 0 < i < |s| ==> s[i] == s[1..][i - 1];
  }

  /** Bare text reads back in full exactly when it holds no special character. */
  lemma {:induction false} BareRoundTrip(s: string, tail: string)
    requires Ends(tail)
    ensures ReadBare(s + tail).0 == s <==> Bare(s)
    ensures Bare(s) ==> ReadBare(s + tail) == (s, tail)
  {
    hide Special, Bare;
    if s == "" {
      NothingBare(tail);
    } else {
      BareRoundTrip(s[1..], tail);
      BareCons(s);
      BareStep(s, tail);
      var read := ReadBare(s[1..] + tail).0;
      assert s == [s[0]] + s[1..] && ([s[0]] + read)[1..] == read;
    }
  }

  lemma {:induction false} NothingBare(tail: string)
    requires Ends(tail)
    ensures Bare("") && "" + tail == tail && ReadBare(tail) == ("", tail)
  {
  }

  lemma {:induction false} BareStep(s: string, tail: string)
    requires s != ""
    ensures Special(s[0]) ==> ReadBare(s + tail).0 == ""
    ensures !Special(s[0]) ==> ReadBare(s + tail) == ([s[0]] + ReadBare(s[1..] + tail).0, ReadBare(s[1..] + tail).1)
  {
    hide Special;
    assert (s + tail)[1..] == s[1..] + tail;
  }

  /**
   The values the printer renders readably: a string that is quoted or holds no line break, and
   any other value whose printed form needs no quotes.
   */
  predicate Printable(v: Value) {
    match v
    case Missing => true
    case Text(s) => NeedsQuotes(s) || ('\r' !in s && '\n' !in s)
    case Other(s) => Bare(s)
  }

  /** The number of quotes a text starts with. */
  function Quotes(s: string): nat { if s != "" && s[0] == '"' then 1 + Quotes(s[1..]) else 0 }

  /** Unquoting halves the leading quotes at least. */
  lemma {:induction false} QuotesHalved(s: string)
    ensures ReadQuoted(s).Some? ==> 2 * Quotes(ReadQuoted(s).value.0) <= Quotes(s)
  {
    if s != "" && s[0] == '"' && |s| > 1 && s[1] == '"' {
      QuotesHalved(s[2..]);
      assert s[1..][1..] == s[2..];
      if ReadQuoted(s).Some? {
        assert ReadQuoted(s).value.0[1..] == ReadQuoted(s[2..]).value.0;
      }
    }
  }

  lemma {:induction false} QuotesBefore(s: string, tail: string)
    requires Ends(tail)
    ensures Quotes(s + tail) == Quotes(s)
  {
    if s == "" {
      assert s + tail == tail;
    } else {
      assert (s + tail)[1..] == s[1..] + tail;
      QuotesBefore(s[1..], tail);
    }
  }

  /** Text that starts with a quote of its own never reads back as it is. */
  lemma {:induction false} QuoteLost(s: string, tail: string)
    requires Ends(tail) && s != "" && s[0] == '"'
    ensures ReadField(s + tail).Some? ==> ReadField(s + tail).value.0 != s
  {
    assert (s + tail)[1..] == s[1..] + tail;
    QuotesBefore(s[1..], tail);
    QuotesHalved(s[1..] + tail);
  }

  /** One field reads back exactly when its value is printable. */
  lemma {:induction false} FieldRoundTrip(v: Value, tail: string)
    requires Ends(tail)
    ensures Printable(v) ==> ReadField(Render(v) + tail) == Some((Plain(v), tail))
    ensures !Printable(v) && ReadField(Render(v) + tail).Some? ==> ReadField(Render(v) + tail).value.0 != Plain(v)
  {
    hide Doubled, ReadQuoted;
    if v.Text? && NeedsQuotes(v.text) {
      QuotedRoundTrip(v.text, tail);
      assert (Render(v) + tail)[1..] == Doubled(v.text) + ['"'] + tail;
    } else {
      var s := Plain(v);
      BareRoundTrip(s, tail);
      assert Render(v) == s;
      assert forall i :: 0 <= i < |s| ==> s[i] in s;
      if s != "" && s[0] == '"' {
        QuoteLost(s, tail);
      } else {
        assert s + tail == "" || (s + tail)[0] != '"';
      }
    }
  }

  lemma {:induction false} JoinCons(f: string, fields: seq<string>)
    ensures Join([f] + fields) == f + if fields == [] then "" else [','] + Join(fields)
  {
    assert ([f] + fields)[1..] == fields;
  }

  /**
   Round trip, exactly: reading the printed line gives the values back, missing ones as empty
   strings and others as printed, if and only if there is at least one value, no string breaks the
   line unquoted, and no other value prints a separator, a quote or a line break.
   */
  lemma {:induction false} RoundTripIff(values: seq<Value>)
    ensures ReadRecord(Format(values)) == Some(Plains(values))
       <==> values != [] && forall i :: 0 <= i < |values| ==> Printable(values[i])
  {
    hide ReadField, Render, Plain, Printable, Join, ReadRecord;
    if values == [] {
      EmptyLine();
    } else {
      var v, rest := values[0], values[1..];
      var tail := if rest == [] then "" else [','] + Format(rest);
      assert MapSeq(Render, values) == [Render(v)] + MapSeq(Render, rest);
      JoinCons(Render(v), MapSeq(Render, rest));
      assert Format(values) == Render(v) + tail;
      assert Plains(values) == [Plain(v)] + Plains(rest);
      FieldRoundTrip(v, tail);
      RecordStep(v, rest, tail);
      if rest != [] {
        RoundTripIff(rest);
      }
      assert forall i :: 0 < i < |values| ==> values[i] == rest[i - 1];
    }
  }

  lemma {:induction false} EmptyLine()
    ensures ReadRecord(Format([])) != Some(Plains([]))
  {
    assert Format([]) == "" && Plains([]) == [];
    assert ReadField("").value == ("", "");
  }

  /** Reading a line whose first field was rendered from `v`. */
  lemma {:induction false} RecordStep(v: Value, rest: seq<Value>, tail: string)
    requires tail == if rest == [] then "" else [','] + Format(rest)
    ensures ReadRecord(Render(v) + tail) == Some([Plain(v)] + Plains(rest))
       <==> Printable(v) && (rest == [] || ReadRecord(Format(rest)) == Some(Plains(rest)))
  {
    hide ReadField, Render, Plain, Printable, Join;
    FieldRoundTrip(v, tail);
    var line := Render(v) + tail;
    var expected := [Plain(v)] + Plains(rest);
    assert expected[0] == Plain(v) && expected[1..] == Plains(rest);
    var read := ReadRecord(line);
    if !Printable(v) {
      assert read.Some? ==> read.value[0] == ReadField(line).value.0;
    } else if rest == [] {
      assert Plains(rest) == [] && expected == [Plain(v)];
    } else {
      assert tail[1..] == Format(rest);
      var r := ReadRecord(Format(rest));
      if r.Some? {
        assert ([Plain(v)] + r.value)[1..] == r.value;
      }
    }
  }

  /** What a list does: printed bare, its separator splits it into two fields. */
  lemma {:induction false} ListSplits(a: string, b: string)
    requires Bare(a) && Bare(b)
    ensures ReadRecord(Format([Other(a + [','] + b)])) == Some([a, b])
  {
    hide Special, ReadBare;
    var v := Other(a + [','] + b);
    assert MapSeq(Render, [v]) == [Render(v)];
    var tail := [','] + b;
    assert a + [','] + b == a + tail && Format([v]) == a + tail;
    BareRoundTrip(a, tail);
    BareFirst(a, tail);
    assert tail[1..] == b && b + "" == b;
    BareRoundTrip(b, "");
    BareFirst(b, "");
    assert ReadRecord(b) == Some([b]);
    assert ReadField(a + tail) == Some((a, tail));
    assert MapSeq(Render, [v]) == [a + tail];
    assert Join([a + tail]) == a + tail;
    assert [a] + [b] == [a, b];
  }

  /** A bare text is read as an unquoted field. */
  lemma {:induction false} BareFirst(s: string, tail: string)
    requires Bare(s) && Ends(tail)
    ensures ReadField(s + tail) == Some(ReadBare(s + tail))
  {
    assert s != "" ==> !Special(s[0]) && (s + tail)[0] == s[0];
  }
}
