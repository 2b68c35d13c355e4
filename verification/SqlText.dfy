/** Quoting of SQL string literals and literal lists, against the way a SQL parser reads
    them: inside a character string literal a doubled quote stands for one quote
    (ISO/IEC 9075:1992, section 5.3).
 */
module SqlText {
  import opened Errors

  // strings.ReplaceAll(value, "'", "''")
  function Doubled(value: string): string {
    if value == "" then ""
    else (if value[0] == '\'' then "''" else [value[0]]) + Doubled(value[1..])
  }

  function SqlStringLiteral(value: string): string {
    "'" + Doubled(value) + "'"
  }

  function JoinComma(quoted: seq<string>): string {
    if quoted == [] then ""
    else if |quoted| == 1 then quoted[0]
    else quoted[0] + ", " + JoinComma(quoted[1..])
  }

  function Quoted(values: seq<string>): (quoted: seq<string>)
    ensures |quoted| == |values|
  {
    if values == [] then [] else [SqlStringLiteral(values[0])] + Quoted(values[1..])
  }

  function ListText(values: seq<string>): string {
    JoinComma(Quoted(values))
  }

  method SqlStringList(values: seq<string>) returns (text: string)
    ensures text == ListText(values)
  {
    var quoted := [];
    for i := 0 to |values|
      invariant quoted + Quoted(values[i..]) == Quoted(values)
    {
      assert values[i..][1..] == values[i + 1..];
      quoted := quoted + [SqlStringLiteral(values[i])];
    }
    assert quoted == Quoted(values);
    text := JoinComma(quoted);
  }

  // --- reading it back --------------------------------------------------------------

  // The rest of a literal after its opening quote: its value and the text that follows.
  function ReadBody(text: string): Option<(string, string)> {
    if text == "" then None
    else if text[0] != '\'' then
      var more := ReadBody(text[1..]);
      if more.None? then None else Some(([text[0]] + more.value.0, more.value.1))
    else if |text| >= 2 && text[1] == '\'' then
      var more := ReadBody(text[2..]);
      if more.None? then None else Some(("'" + more.value.0, more.value.1))
    else Some(("", text[1..]))
  }

  function ReadLiteral(text: string): Option<(string, string)> {
    if text != "" && text[0] == '\'' then ReadBody(text[1..]) else None
  }

  // A comma-separated list of literals and the text that follows it.
  function ReadList(text: string, fuel: nat): Option<(seq<string>, string)>
    decreases fuel
  {
    var first := ReadLiteral(text);
    if fuel == 0 || first.None? then None
    else
      var (value, rest) := first.value;
      if ", " <= rest then
        var more := ReadList(rest[2..], fuel - 1);
        if more.None? then None else Some(([value] + more.value.0, more.value.1))
      else Some(([value], rest))
  }

  lemma {:induction false} BodyRoundTrip(value: string, rest: string)
    requires rest == "" || rest[0] != '\''
    ensures ReadBody(Doubled(value) + "'" + rest) == Some((value, rest))
  {
    var text := Doubled(value) + "'" + rest;
    if value == "" {
      assert text == "'" + rest;
      assert text[1..] == rest;
    } else {
      BodyRoundTrip(value[1..], rest);
      var tail := Doubled(value[1..]) + "'" + rest;
      if value[0] == '\'' {
        assert text == "''" + tail;
        assert text[2..] == tail;
        assert "'" + value[1..] == value;
      } else {
        assert text == [value[0]] + tail;
        assert text[1..] == tail;
        assert [value[0]] + value[1..] == value;
      }
    }
  }

  /** A generated literal reads back as exactly the original string, whatever quotes the
      string contains and whatever (other than a quote) follows the literal. */
  lemma LiteralRoundTrip(value: string, rest: string)
    requires rest == "" || rest[0] != '\''
    ensures ReadLiteral(SqlStringLiteral(value) + rest) == Some((value, rest))
  {
    BodyRoundTrip(value, rest);
    var text := SqlStringLiteral(value) + rest;
    assert text[1..] == Doubled(value) + "'" + rest;
  }

  lemma ListTextUnfold(values: seq<string>)
    requires values != []
    ensures ListText(values)
         == if |values| == 1 then SqlStringLiteral(values[0]) else SqlStringLiteral(values[0]) + ", " + ListText(values[1..])
  {
    assert Quoted(values)[1..] == Quoted(values[1..]);
  }

  lemma Regroup(a: string, b: string, c: string, d: string)
    ensures a + b + c + d == a + (b + (c + d))
  {
  }

  lemma ReadLast(value: string, rest: string)
    requires rest == "" || (rest[0] != '\'' && rest[0] != ',')
    ensures ReadList(SqlStringLiteral(value) + rest, 1) == Some(([value], rest))
  {
    LiteralRoundTrip(value, rest);
  }

  lemma ReadMore(value: string, tail: string, fuel: nat)
    ensures var more := ReadList(tail, fuel);
            ReadList(SqlStringLiteral(value) + (", " + tail), fuel + 1)
            == if more.None? then None else Some(([value] + more.value.0, more.value.1))
  {
    LiteralRoundTrip(value, ", " + tail);
    assert (", " + tail)[2..] == tail;
  }

  /** A generated literal list reads back as exactly the original strings, including ones
      that contain quotes or the separator, and the reader stops where the list ends. */
  lemma {:induction false} ListRoundTrip(values: seq<string>, rest: string)
    requires values != []
    requires rest == "" || (rest[0] != '\'' && rest[0] != ',')
    ensures ReadList(ListText(values) + rest, |values|) == Some((values, rest))
  {
    ListTextUnfold(values);
    if |values| == 1 {
      ReadLast(values[0], rest);
      assert values == [values[0]];
    } else {
      var tail := ListText(values[1..]) + rest;
      ListRoundTrip(values[1..], rest);
      ReadMore(values[0], tail, |values| - 1);
      Regroup(SqlStringLiteral(values[0]), ", ", ListText(values[1..]), rest);
      assert [values[0]] + values[1..] == values;
    }
  }
}
