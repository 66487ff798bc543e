/** The CSV rows a benchmark run writes and reads back. */
module Csv {
  const CSV_FIELD_BYTES_MAX: nat := 4096

  datatype Parsed = Fields(fields: seq<string>) | TooMany | MisplacedQuote | TooLong(number: nat) | Unterminated

  datatype Encoded = Text(text: string) | Unsupported

  function Utf8Len(c: char): nat {
    if c as int < 0x80 then 1 else if c as int < 0x800 then 2 else if c as int < 0x1_0000 then 3 else 4
  }

  function Bytes(s: string): nat {
    if s == "" then 0 else Bytes(s[..|s| - 1]) + Utf8Len(s[|s| - 1])
  }

  // ---------------------------------------------------------------- writing

  predicate Encodable(value: string) { '\"' !in value && '\n' !in value && '\r' !in value }

  function Encode(value: string): (r: Encoded)
    ensures r.Text? <==> Encodable(value)
    ensures r.Text? && ',' !in value ==> r.text == value
    ensures r.Text? && ',' in value ==>
              && |r.text| == |value| + 2 && r.text[0] == r.text[|value| + 1] == '\"' && r.text[1..|value| + 1] == value
  {
    if !Encodable(value) then Unsupported
    else if ',' in value then Text("\"" + value + "\"")
    else Text(value)
  }

  /** The encoded fields joined by commas; one unsupported field refuses the row. */
  function EncodeRow(row: seq<string>): (r: Encoded)
    ensures r.Text? <==> forall k | 0 <= k < |row| :: Encodable(row[k])
  {
    if row == [] then Text("")
    else
      match Encode(row[0])
      case Unsupported => Unsupported
      case Text(first) =>
        if |row| == 1 then Text(first)
        else
          match EncodeRow(row[1..])
          case Unsupported => Unsupported
          case Text(rest) => Text(first + "," + rest)
  }

  // ---------------------------------------------------------------- reading

  /** What the reader makes of the rest of a line, given the fields and the field read so far. */
  function Scan(fields: seq<string>, field: string, quoted: bool, line: string, expected: nat): (r: Parsed)
    decreases |line|
  {
    if line == "" then
      if quoted then Unterminated else Fields(fields + [field])
    else
      var c, rest := line[0], line[1..];
      if c == '\"' && field == "" && !quoted then Scan(fields, field, true, rest, expected)
      else if c == '\"' && quoted then Scan(fields, field, false, rest, expected)
      else if c == ',' && !quoted then
        if |fields| + 1 >= expected then TooMany else Scan(fields + [field], "", false, rest, expected)
      else if c == '\"' then MisplacedQuote
      else if Bytes(field) + Utf8Len(c) > CSV_FIELD_BYTES_MAX then TooLong(|fields| + 1)
      else Scan(fields, field + [c], quoted, rest, expected)
  }

  /** The character loop of the reader. */
  method ReadFields(line: string, expected: nat) returns (r: Parsed)
    ensures r == Scan([], "", false, line, expected)
  {
    var fields: seq<string>, field, quoted, bytes := [], "", false, 0;
    for i := 0 to |line|
      invariant bytes == Bytes(field)
      invariant Scan([], "", false, line, expected) == Scan(fields, field, quoted, line[i..], expected)
    {
      var c := line[i];
      assert line[i..][0] == c && line[i..][1..] == line[i + 1..];
      if c == '\"' && field == "" && !quoted {
        quoted := true;
      } else if c == '\"' && quoted {
        quoted := false;
      } else if c == ',' && !quoted {
        if |fields| + 1 >= expected { return TooMany; }
        fields, field, bytes := fields + [field], "", 0;
      } else if c == '\"' {
        return MisplacedQuote;
      } else {
        if bytes + Utf8Len(c) > CSV_FIELD_BYTES_MAX { return TooLong(|fields| + 1); }
        BytesSnoc(field, c);
        field, bytes := field + [c], bytes + Utf8Len(c);
      }
    }
    if quoted { return Unterminated; }
    r := Fields(fields + [field]);
  }

  // ---------------------------------------------------------------- round trip

  lemma BytesSnoc(s: string, c: char)
    ensures Bytes(s + [c]) == Bytes(s) + Utf8Len(c)
  {
    assert (s + [c])[..|s|] == s;
  }

  lemma {:induction false} BytesPrefix(s: string, t: string)
    ensures Bytes(s) <= Bytes(s + t)
    decreases |t|
  {
    if t == "" {
      assert s + t == s;
    } else {
      BytesPrefix(s, t[..|t| - 1]);
      assert (s + t)[..|s + t| - 1] == s + t[..|t| - 1];
    }
  }

  /** Ordinary characters, commas included inside quotes, are added to the field as long as it fits. */
  lemma {:induction false} ScanText(fields: seq<string>, field: string, quoted: bool, text: string, rest: string,
                                    expected: nat)
    requires '\"' !in text && (quoted || ',' !in text) && Bytes(field) <= CSV_FIELD_BYTES_MAX
    ensures Scan(fields, field, quoted, text + rest, expected)
            == if Bytes(field + text) <= CSV_FIELD_BYTES_MAX then Scan(fields, field + text, quoted, rest, expected)
               else TooLong(|fields| + 1)
    decreases |text|
  {
    if text == "" {
      assert text + rest == rest && field + text == field;
    } else {
      var c := text[0];
      assert (text + rest)[0] == c && (text + rest)[1..] == text[1..] + rest;
      assert field + text == field + [c] + text[1..];
      BytesSnoc(field, c);
      if Bytes(field + [c]) <= CSV_FIELD_BYTES_MAX {
        ScanText(fields, field + [c], quoted, text[1..], rest, expected);
      } else {
        BytesPrefix(field + [c], text[1..]);
      }
    }
  }

  /** One encoded field, up to what follows it. */
  lemma ScanField(fields: seq<string>, value: string, rest: string, expected: nat)
    requires Encodable(value)
    ensures Scan(fields, "", false, Encode(value).text + rest, expected)
            == if Bytes(value) <= CSV_FIELD_BYTES_MAX then Scan(fields, value, false, rest, expected)
               else TooLong(|fields| + 1)
  {
    assert "" + value == value;
    if ',' in value {
      var line := "\"" + value + "\"" + rest;
      assert line[0] == '\"' && line[1..] == value + ("\"" + rest);
      ScanText(fields, "", true, value, "\"" + rest, expected);
      assert ("\"" + rest)[1..] == rest;
    } else {
      ScanText(fields, "", false, value, rest, expected);
    }
  }

  /** Fields of a row read so far, and the rest still encoded. */
  lemma {:induction false} ScanRow(fields: seq<string>, row: seq<string>, expected: nat)
    requires row != [] && forall k | 0 <= k < |row| :: Encodable(row[k])
    ensures var r := Scan(fields, "", false, EncodeRow(row).text, expected);
            if Fits(row) && (|row| == 1 || |fields| + |row| <= expected) then r == Fields(fields + row)
            else r.TooMany? || r.TooLong?
    decreases |row|
  {
    var value := row[0];
    if |row| == 1 {
      assert row == [value];
      ScanField(fields, value, "", expected);
      assert Encode(value).text + "" == Encode(value).text;
    } else {
      var rest := EncodeRow(row[1..]).text;
      assert EncodeRow(row).text == Encode(value).text + ("," + rest);
      ScanField(fields, value, "," + rest, expected);
      assert ("," + rest)[1..] == rest;
      if Bytes(value) <= CSV_FIELD_BYTES_MAX && |fields| + 1 < expected {
        ScanRow(fields + [value], row[1..], expected);
        assert fields + [value] + row[1..] == fields + row;
      }
    }
  }

  predicate Fits(row: seq<string>) {
    forall k | 0 <= k < |row| :: Bytes(row[k]) <= CSV_FIELD_BYTES_MAX
  }

  /** Reading back a written row gives the row exactly if it has no more fields than expected and
      each fits the byte limit; otherwise it is refused, and never as badly quoted. */
  lemma RoundTrip(row: seq<string>, expected: nat)
    requires row != [] && expected > 0 && EncodeRow(row).Text?
    ensures var r := Scan([], "", false, EncodeRow(row).text, expected);
            && (r == Fields(row) <==> |row| <= expected && Fits(row))
            && (r == Fields(row) || r.TooMany? || r.TooLong?)
  {
    ScanRow([], row, expected);
    assert [] + row == row;
  }

  // ---------------------------------------------------------------- lines nobody wrote

  /** A line without its quotes. */
  function Bare(line: string): string {
    if line == "" then "" else (if line[0] == '\"' then "" else [line[0]]) + Bare(line[1..])
  }

  function Quotes(line: string): nat {
    if line == "" then 0 else (if line[0] == '\"' then 1 else 0) + Quotes(line[1..])
  }

  /** Fields put together again, a comma between each two. */
  function Joined(fields: seq<string>): string
    requires fields != []
  {
    if |fields| == 1 then fields[0] else Joined(fields[..|fields| - 1]) + "," + fields[|fields| - 1]
  }

  /** What has been read up to here, as it would look joined. */
  function SoFar(fields: seq<string>, field: string): string { Joined(fields + [field]) }

  lemma SoFarGrows(fields: seq<string>, field: string, c: char)
    ensures SoFar(fields, field + [c]) == SoFar(fields, field) + [c]
    ensures SoFar(fields + [field], "") == SoFar(fields, field) + ","
  {
    assert (fields + [field])[..|fields|] == fields && (fields + [field + [c]])[..|fields|] == fields;
    assert (fields + [field] + [""])[..|fields| + 1] == fields + [field];
    if fields != [] {
      assert Joined(fields) + "," + (field + [c]) == Joined(fields) + "," + field + [c];
    }
    assert Joined(fields + [field]) + "," + "" == Joined(fields + [field]) + ",";
  }

  /** One character of the line, ahead of those that follow. */
  lemma BareStep(before: string, line: string)
    requires line != ""
    ensures before + Bare(line) == (if line[0] == '\"' then before else before + [line[0]]) + Bare(line[1..])
  {
    var rest := Bare(line[1..]);
    if line[0] == '\"' {
      assert Bare(line) == "" + rest == rest;
    } else {
      assert Bare(line) == [line[0]] + rest;
      Regroup(before, [line[0]], rest);
    }
  }

  lemma Regroup(a: string, b: string, c: string)
    ensures a + (b + c) == a + b + c
  {
  }

  /** Every line that is read at all, written by us or not, is read without losing, adding or moving a
      character: the fields, joined by commas, are the line without its quotes. Its quotes come in pairs,
      no field is over the limit, and unless there is just one field there are at most as many as
      expected. */
  lemma {:induction false} ScanConserves(fields: seq<string>, field: string, quoted: bool, line: string, expected: nat)
    requires Fits(fields) && Bytes(field) <= CSV_FIELD_BYTES_MAX
    ensures var r := Scan(fields, field, quoted, line, expected);
            && (r.Fields? ==>
                  && |r.fields| > 0 && Joined(r.fields) == SoFar(fields, field) + Bare(line)
                  && Quotes(line) % 2 == (if quoted then 1 else 0)
                  && Fits(r.fields) && (|r.fields| == |fields| + 1 || |r.fields| <= expected))
            && (r.Unterminated? ==> Quotes(line) % 2 == (if quoted then 0 else 1))
    decreases |line|
  {
    if line == "" {
      assert SoFar(fields, field) + Bare(line) == SoFar(fields, field);
    } else {
      var c, rest := line[0], line[1..];
      BareStep(SoFar(fields, field), line);
      SoFarGrows(fields, field, c);
      if c == '\"' && field == "" && !quoted {
        ScanConserves(fields, field, true, rest, expected);
      } else if c == '\"' && quoted {
        ScanConserves(fields, field, false, rest, expected);
      } else if c == ',' && !quoted {
        if |fields| + 1 < expected { ScanConserves(fields + [field], "", false, rest, expected); }
      } else if c != '\"' && Bytes(field) + Utf8Len(c) <= CSV_FIELD_BYTES_MAX {
        BytesSnoc(field, c);
        ScanConserves(fields, field + [c], quoted, rest, expected);
      }
    }
  }

  /** So a line with an odd number of quotes, such as one cut off inside a quoted field, is never
      accepted, and one with an even number is never called unterminated. */
  lemma OddQuotesAreRefused(line: string, expected: nat)
    ensures var r := Scan([], "", false, line, expected);
            && (r.Fields? ==> Quotes(line) % 2 == 0 && |r.fields| > 0 && Joined(r.fields) == Bare(line))
            && (r.Unterminated? ==> Quotes(line) % 2 == 1)
  {
    ScanConserves([], "", false, line, expected);
    assert [] + [""] == [""] && "" + Bare(line) == Bare(line);
  }

  /** A quoted field whose closing quote is missing is refused as unterminated, and a quote right after
      unquoted text as misplaced, wherever in the line they stand, unless the text is too long. */
  lemma BadQuotesAreNamed(fields: seq<string>, text: string, rest: string, expected: nat)
    requires '\"' !in text && Bytes(text) <= CSV_FIELD_BYTES_MAX
    ensures Scan(fields, "", false, "\"" + text, expected).Unterminated?
    ensures text != "" && ',' !in text ==> Scan(fields, "", false, text + ("\"" + rest), expected).MisplacedQuote?
  {
    hide Bytes;
    assert "" + text == text;
    var open := "\"" + text;
    assert open[0] == '\"' && open[1..] == text && text + "" == text;
    BytesPrefix("", text);
    ScanText(fields, "", true, text, "", expected);
    if text != "" && ',' !in text {
      ScanText(fields, "", false, text, "\"" + rest, expected);
      assert ("\"" + rest)[0] == '\"';
    }
  }
}
