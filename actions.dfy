/** The `get_from_db` tool body, which turns what `execute` settles to into the text the
    agent reads, and the transcript preparation of `message`. */
module Actions {
  import opened Text
  import opened Guard
  import opened Database

  datatype Option<T> = None | Some(value: T)

  /** `row[key]`: the value of the property `key`, if the row has one. */
  function Lookup(row: seq<(string, Cell)>, key: string): (r: Option<Cell>)
    ensures r.None? <==> forall i :: 0 <= i < |row| ==> row[i].0 != key
    ensures r.Some? ==> exists i :: 0 <= i < |row| && row[i] == (key, r.value)
    decreases |row|
  {
    if row == [] then None
    else if row[0].0 == key then Some(row[0].1)
    else
      var r := Lookup(row[1..], key);
      assert forall i :: 1 <= i < |row| ==> row[i] == row[1..][i - 1];
      r
  }

  /** JavaScript truthiness of a looked-up value: `undefined`, `null`, `0` and `''` are falsy. */
  predicate Truthy(v: Option<Cell>) {
    match v
    case None => false
    case Some(Null) => false
    case Some(Number(n)) => n != 0
    case Some(Str(t)) => t != ""
  }

  /** `${row[key] || ''}`. */
  function Render(v: Option<Cell>): string {
    match v
    case Some(Number(n)) => if n == 0 then "" else IntToString(n)
    case Some(Str(t)) => t
    case _ => ""
  }

  /** Exactly the falsy values render as an empty cell. */
  lemma RenderEmptyIffFalsy(v: Option<Cell>)
    ensures Render(v) == "" <==> !Truthy(v)
  {
  }

  /** `Object.keys(row)`. */
  function Names(row: Row): (r: seq<string>)
    ensures |r| == |row| && forall k :: 0 <= k < |row| ==> r[k] == row[k].0
  {
    Map((p: (string, Cell)) => p.0, row)
  }

  /** `| k1 | ... | km |` */
  function HeaderLine(keys: seq<string>): string {
    "| " + Join(keys, " | ") + " |"
  }

  /** One `---` cell per key. */
  function SeparatorLine(keys: seq<string>): string {
    "| " + Join(Map((k: string) => "---", keys), " | ") + " |"
  }

  /** The values of `row` under `keys`, rendered. */
  function RowCells(keys: seq<string>, row: Row): seq<string> {
    Map((k: string) => Render(Lookup(row, k)), keys)
  }

  function DataLine(keys: seq<string>, row: Row): string {
    "| " + Join(RowCells(keys, row), " | ") + " |"
  }

  function DataLines(keys: seq<string>, rows: seq<Row>): (r: seq<string>)
    ensures |r| == |rows| && forall k :: 0 <= k < |rows| ==> r[k] == DataLine(keys, rows[k])
  {
    Map((row: Row) => DataLine(keys, row), rows)
  }

  /** `tableFormatted`: header, separator and one line per row, the keys taken from the
      first row. */
  function Grid(rows: seq<Row>): string
    requires |rows| > 0
  {
    var keys := Names(rows[0]);
    HeaderLine(keys) + "\n" + SeparatorLine(keys) + "\n" + Join(DataLines(keys, rows), "\n")
  }

  // The reply texts below equal the literal messages of the tool body. Some are written as
  // a concatenation of shorter pieces, which the verifier handles faster than one long literal.

  /** The word every reply about a query that ran, or was refused, starts with. */
  const QueryWord := "Query"

  const SuccessLead := QueryWord + " executed successfully! Found "

  const SuccessTail := " results:"

  const SqlLabel := "SQL Query: "

  const NoResultsLine := QueryWord + " executed successfully" + " but returned no results."

  /** A blank line between the parts of a reply. */
  const Gap := "\n\n"

  function SuccessText(sql: string, rows: seq<Row>): string
    requires |rows| > 0
  {
    SuccessLead + NatToString(|rows|) + SuccessTail + Gap + SqlLabel + sql + Gap + Grid(rows)
  }

  function NoResultsText(sql: string): string {
    NoResultsLine + Gap + SqlLabel + sql
  }

  function ResultText(value: string): string {
    QueryWord + " executed with result: " + Json(value)
  }

  /** `${error}` of an `Error` is `Error: ` followed by its message. */
  function ErrorText(message: string): string {
    ErrorLead + message + ErrorTail
  }

  const ErrorLead := "Error executing query: " + "Error: "

  const ErrorTail := ". Please check your SQL syntax" + " and try again."

  const InvalidInputText := "Please provide a valid SQL query."

  /** The reply for a query `sql` whose `execute` settled as `s`. */
  function Reply(sql: string, s: Settled): string {
    match s
    case Rejected(e) => ErrorText(e)
    case Resolved(Message(t)) => ResultText(t)
    case Resolved(ResultRows(rows, _)) => if |rows| > 0 then SuccessText(sql, rows) else NoResultsText(sql)
  }

  /** The tool body: `execute` runs only for a present, non-empty `sql`. */
  function ToolReply(sql: Option<string>, execute: string -> Settled): string {
    if sql.Some? && sql.value != "" then Reply(sql.value, execute(sql.value)) else InvalidInputText
  }

  // JSON.stringify of a string

  function HexDigit(d: nat): (c: char)
    requires d < 16
  {
    if d < 10 then ('0' as int + d) as char else ('a' as int + d - 10) as char
  }

  /** The escape QuoteJSONString writes for one character. */
  function EscapeChar(c: char): string {
    if c == '"' then "\\\""
    else if c == '\\' then "\\\\"
    else if c == '\U{8}' then "\\b"
    else if c == '\t' then "\\t"
    else if c == '\n' then "\\n"
    else if c == '\U{C}' then "\\f"
    else if c == '\r' then "\\r"
    else if c < ' ' then "\\u00" + [HexDigit(c as int / 16), HexDigit(c as int % 16)]
    else [c]
  }

  function Escape(s: string): string
    decreases |s|
  {
    if s == [] then "" else EscapeChar(s[0]) + Escape(s[1..])
  }

  /** `JSON.stringify(s)` for a string `s`. */
  function Json(s: string): string {
    "\"" + Escape(s) + "\""
  }

  // Reading back a JSON string literal of the kind `Escape` writes

  predicate IsHex(c: char) {
    '0' <= c <= '9' || 'a' <= c <= 'f' || 'A' <= c <= 'F'
  }

  function HexValue(c: char): (v: nat)
    requires IsHex(c)
    ensures v < 16
  {
    if c <= '9' then c as int - '0' as int
    else if c <= 'F' then c as int - 'A' as int + 10
    else c as int - 'a' as int + 10
  }

  /** The character a one-letter escape `\x` stands for. */
  function SimpleEscape(x: char): Option<char> {
    if x == '"' || x == '\\' || x == '/' then Some(x)
    else if x == 'b' then Some('\U{8}')
    else if x == 't' then Some('\t')
    else if x == 'n' then Some('\n')
    else if x == 'f' then Some('\U{C}')
    else if x == 'r' then Some('\r')
    else None
  }

  function Prepend(c: char, rest: Option<string>): Option<string> {
    if rest.Some? then Some([c] + rest.value) else None
  }

  /** The text between the quotes of a JSON string literal, decoded; `None` when it is not
      well formed, or when it escapes any surrogate code unit, even one of a valid pair. */
  function Unescape(t: string): Option<string>
    decreases |t|
  {
    if t == [] then Some("")
    else if t[0] == '\\' then
      if |t| >= 2 && SimpleEscape(t[1]).Some? then Prepend(SimpleEscape(t[1]).value, Unescape(t[2..]))
      else if |t| >= 6 && t[1] == 'u' && IsHex(t[2]) && IsHex(t[3]) && IsHex(t[4]) && IsHex(t[5]) then
        var v := ((HexValue(t[2]) * 16 + HexValue(t[3])) * 16 + HexValue(t[4])) * 16 + HexValue(t[5]);
        if 0xD800 <= v < 0xE000 then None else Prepend(v as char, Unescape(t[6..]))
      else None
    else if t[0] == '"' || t[0] < ' ' then None
    else Prepend(t[0], Unescape(t[1..]))
  }

  function Unquote(t: string): Option<string> {
    if |t| >= 2 && t[0] == '"' && t[|t| - 1] == '"' then Unescape(t[1..|t| - 1]) else None
  }

  lemma HexDigitValue(d: nat)
    requires d < 16
    ensures IsHex(HexDigit(d)) && HexValue(HexDigit(d)) == d
  {
  }

  lemma {:induction false} UnescapeChar(c: char, rest: string)
    ensures Unescape(EscapeChar(c) + rest) == Prepend(c, Unescape(rest))
  {
    var e := EscapeChar(c);
    var t := e + rest;
    if |e| == 1 {
      assert t[1..] == rest;
    } else if |e| == 2 {
      assert t[2..] == rest;
    } else {
      assert c < ' ' && e == "\\u00" + [HexDigit(c as int / 16), HexDigit(c as int % 16)];
      HexDigitValue(c as int / 16);
      HexDigitValue(c as int % 16);
      assert t[6..] == rest;
      assert t[2] == '0' && t[3] == '0';
      assert t[4] == HexDigit(c as int / 16) && t[5] == HexDigit(c as int % 16);
    }
  }

  /** Every string survives `JSON.stringify` followed by `Unescape`. */
  lemma {:induction false} UnescapeEscape(s: string)
    ensures Unescape(Escape(s)) == Some(s)
    decreases |s|
  {
    if s != [] {
      UnescapeEscape(s[1..]);
      UnescapeChar(s[0], Escape(s[1..]));
      assert s == [s[0]] + s[1..];
    }
  }

  lemma JsonRoundTrip(s: string)
    ensures Unquote(Json(s)) == Some(s)
  {
    UnescapeEscape(s);
    var j := Json(s);
    assert j[1..|j| - 1] == Escape(s);
  }

  /** A character `JSON.stringify` writes as it is. */
  predicate Plain(c: char) {
    c != '"' && c != '\\' && c >= ' '
  }

  /** A string without quotes, backslashes or control characters is only put in quotes. */
  lemma {:induction false} JsonOfPlain(s: string)
    requires forall k :: 0 <= k < |s| ==> Plain(s[k])
    ensures Json(s) == "\"" + s + "\""
  {
    EscapePlain(s);
  }

  lemma {:induction false} EscapePlain(s: string)
    requires forall k :: 0 <= k < |s| ==> Plain(s[k])
    ensures Escape(s) == s
    decreases |s|
  {
    if s != [] {
      EscapePlain(s[1..]);
      assert s == [s[0]] + s[1..];
    }
  }

  // What the agent reads

  /** No rendered cell of the grid holds `c`. */
  predicate CellsExclude(keys: seq<string>, rows: seq<Row>, c: char) {
    forall i, j :: 0 <= i < |rows| && 0 <= j < |keys| ==> c !in RowCells(keys, rows[i])[j]
  }

  /** The grid as lines: the parts `Grid` joins with newlines. */
  function GridParts(rows: seq<Row>): seq<string>
    requires |rows| > 0
  {
    var keys := Names(rows[0]);
    [HeaderLine(keys), SeparatorLine(keys)] + DataLines(keys, rows)
  }

  lemma {:induction false} GridIsJoin(rows: seq<Row>)
    requires |rows| > 0
    ensures Grid(rows) == Join(GridParts(rows), "\n")
  {
    var keys := Names(rows[0]);
    var d := DataLines(keys, rows);
    var p := GridParts(rows);
    assert p[1..] == [SeparatorLine(keys)] + d && p[1..][1..] == d;
  }

  /** Grid lines hold no `c` when neither the keys nor the cells do (and `c` is not part of the
      frame `| `, ` | `, ` |` or `---`). */
  lemma {:induction false} GridPartsExclude(rows: seq<Row>, c: char)
    requires |rows| > 0
    requires c != '|' && c != ' ' && c != '-'
    requires forall k :: 0 <= k < |rows[0]| ==> c !in rows[0][k].0
    requires CellsExclude(Names(rows[0]), rows, c)
    ensures forall k :: 0 <= k < |GridParts(rows)| ==> c !in GridParts(rows)[k]
  {
    var keys := Names(rows[0]);
    JoinExcludes(keys, " | ", c);
    JoinExcludes(Map((k: string) => "---", keys), " | ", c);
    forall i | 0 <= i < |rows| ensures c !in DataLine(keys, rows[i]) {
      JoinExcludes(RowCells(keys, rows[i]), " | ", c);
    }
  }

  /** For a non-empty result without newlines in keys or cells, the grid is exactly 2 + n
      lines: the header, the separator and one line per row. */
  lemma {:induction false} GridLines(rows: seq<Row>)
    requires |rows| > 0
    requires forall k :: 0 <= k < |rows[0]| ==> '\n' !in rows[0][k].0
    requires CellsExclude(Names(rows[0]), rows, '\n')
    ensures Split(Grid(rows), '\n') == [HeaderLine(Names(rows[0])), SeparatorLine(Names(rows[0]))] + DataLines(Names(rows[0]), rows)
    ensures |Split(Grid(rows), '\n')| == 2 + |rows|
  {
    GridIsJoin(rows);
    GridPartsExclude(rows, '\n');
    SplitJoin(GridParts(rows), '\n');
  }

  lemma ErrorTextStart(e: string)
    ensures ErrorText(e)[0] == 'E'
  {
    assert ErrorText(e) == ErrorLead + (e + ErrorTail);
    assert ErrorLead[0] == 'E';
  }

  lemma ResultTextStart(t: string)
    ensures ResultText(t)[0] == 'Q'
  {
    assert ResultText(t) == QueryWord + (" executed with result: " + Json(t));
  }

  lemma SuccessTextStart(sql: string, rows: seq<Row>)
    requires |rows| > 0
    ensures SuccessText(sql, rows)[0] == 'Q'
  {
    var head := SuccessLead + NatToString(|rows|);
    assert head[0] == 'Q';
    assert SuccessText(sql, rows) == head + SuccessTail + Gap + SqlLabel + sql + Gap + Grid(rows);
  }

  lemma NoResultsTextStart(sql: string)
    ensures NoResultsText(sql)[0] == 'Q'
  {
    assert NoResultsText(sql) == NoResultsLine + (Gap + SqlLabel + sql);
    assert NoResultsLine[0] == 'Q';
  }

  /** Each reply kind has its own first character: a rejected `execute` gives `E`, every
      resolved one `Q`. */
  lemma ReplyKinds(sql: string, s: Settled)
    ensures Reply(sql, s)[0] == 'E' <==> s.Rejected?
    ensures Reply(sql, s)[0] == 'Q' <==> s.Resolved?
  {
    match s
    case Rejected(e) => ErrorTextStart(e);
    case Resolved(Message(t)) => ResultTextStart(t);
    case Resolved(ResultRows(rows, _)) =>
      if |rows| > 0 {
        SuccessTextStart(sql, rows);
      } else {
        NoResultsTextStart(sql);
      }
  }

  /** The timeout and a store error cannot give the same reply. */
  lemma TimeoutIsNotSqlError(sql: string, m: string)
    ensures Reply(sql, Rejected(TimeoutMessage)) != Reply(sql, Resolved(Message(SqlErrorPrefix + m)))
  {
    ReplyKinds(sql, Rejected(TimeoutMessage));
    ReplyKinds(sql, Resolved(Message(SqlErrorPrefix + m)));
  }

  /** `execute` as the tool sees it: the guard, then the driver over the store's tables. */
  function Executed(customers: map<int, Customer>, orders: map<int, Order>, engine: Engine): string -> Settled {
    (q: string) => Outcome(q, engine(customers, orders, q).answer)
  }

  /** The tool's reply for each way a query can end. */
  lemma {:induction false} ToolReplies(sql: string, customers: map<int, Customer>, orders: map<int, Order>, engine: Engine)
    requires sql != ""
    ensures var reply := ToolReply(Some(sql), Executed(customers, orders, engine));
            var answer := engine(customers, orders, sql).answer;
            && (IsDangerous(sql) ==> reply == ResultText(Refusal))
            && (!IsDangerous(sql) && answer.SqlFailure? ==> reply == ResultText(SqlErrorPrefix + answer.message))
            && (!IsDangerous(sql) && answer.Late? ==> reply == ErrorText(TimeoutMessage))
            && (!IsDangerous(sql) && answer.Rows? && answer.rows == [] ==> reply == NoResultsText(sql))
            && (!IsDangerous(sql) && answer.Rows? && answer.rows != [] ==> reply == SuccessText(sql, answer.rows))
  {
  }

  /** Without a query the tool answers with a fixed request and never runs `execute`. */
  lemma MissingSql(execute: string -> Settled, other: string -> Settled)
    ensures ToolReply(None, execute) == ToolReply(Some(""), other) == InvalidInputText
  {
  }

  // The transcript handed to the agent

  datatype Role = System | Human | Ai | ToolCall

  datatype ChatMessage = ChatMessage(role: Role, content: string)

  predicate HasSystemMessage(messages: seq<ChatMessage>) {
    exists i :: 0 <= i < |messages| && messages[i].role == System
  }

  /** `messagesToProcess`: the system prompt goes in front only when the transcript has no
      system message anywhere. */
  function WithSystemMessage(messages: seq<ChatMessage>, prompt: string): (r: seq<ChatMessage>)
    ensures HasSystemMessage(r)
    ensures |messages| <= |r| <= |messages| + 1 && r[|r| - |messages|..] == messages
    ensures |r| == |messages| <==> HasSystemMessage(messages)
    ensures !HasSystemMessage(messages) ==> r[0] == ChatMessage(System, prompt)
  {
    if HasSystemMessage(messages) then messages
    else
      var r := [ChatMessage(System, prompt)] + messages;
      assert r[0].role == System;
      r
  }

  lemma WithSystemMessageIdempotent(messages: seq<ChatMessage>, prompt: string, other: string)
    ensures WithSystemMessage(WithSystemMessage(messages, prompt), other) == WithSystemMessage(messages, prompt)
  {
  }
}
