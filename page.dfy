/** The chat page: `parseTableData`, which reads the grid of a reply back into row objects,
    the table-detection test, and the two capped logs `sendMessage` keeps. */
module Page {
  import opened Text
  import opened Actions

  /** A parsed row object: its properties in the order they were first set. */
  type Record = seq<(string, string)>

  predicate DistinctKeys(row: Record) {
    forall i, j :: 0 <= i < j < |row| ==> row[i].0 != row[j].0
  }

  /** `key` is a property of `row`. */
  predicate Present(row: Record, key: string) {
    exists i :: 0 <= i < |row| && row[i].0 == key
  }

  /** `row[key] = value` on a plain object: a key already present keeps its place and takes the
      new value, a new key goes last. */
  function Assign(row: Record, key: string, value: string): (r: Record)
    requires DistinctKeys(row)
    ensures DistinctKeys(r)
    ensures Present(row, key) ==>
      |r| == |row| && forall i :: 0 <= i < |row| ==> r[i] == if row[i].0 == key then (key, value) else row[i]
    ensures !Present(row, key) ==> r == row + [(key, value)]
    decreases |row|
  {
    if row == [] then [(key, value)]
    else if row[0].0 == key then [(key, value)] + row[1..]
    else
      var rest := Assign(row[1..], key, value);
      assert forall i :: 1 <= i < |row| ==> row[i] == row[1..][i - 1];
      assert Present(row, key) ==> Present(row[1..], key);
      [row[0]] + rest
  }

  /** `values[index] || ''`. */
  function ValueAt(values: seq<string>, index: nat): string {
    if index < |values| && values[index] != "" then values[index] else ""
  }

  /** `headers.forEach((header, index) => { row[header] = values[index] || '' })` on `{}`. */
  function BuildRow(headers: seq<string>, values: seq<string>): (r: Record)
    ensures DistinctKeys(r)
    decreases |headers|
  {
    if headers == [] then []
    else
      var n := |headers| - 1;
      Assign(BuildRow(headers[..n], values), headers[n], ValueAt(values, n))
  }

  /** With distinct headers, the row object has exactly the headers as keys, in order, each with
      the value in its position, and `''` where the line has fewer values. */
  lemma {:induction false} BuildRowDistinct(headers: seq<string>, values: seq<string>)
    requires forall i, j :: 0 <= i < j < |headers| ==> headers[i] != headers[j]
    ensures |BuildRow(headers, values)| == |headers|
    ensures forall i :: 0 <= i < |headers| ==> BuildRow(headers, values)[i] == (headers[i], ValueAt(values, i))
    decreases |headers|
  {
    if headers != [] {
      var n := |headers| - 1;
      var init := headers[..n];
      BuildRowDistinct(init, values);
      var p := BuildRow(init, values);
      var last := (headers[n], ValueAt(values, n));
      assert !Present(p, headers[n]) by {
        forall i | 0 <= i < |p| ensures p[i].0 != headers[n] {
          assert p[i].0 == init[i] == headers[i];
        }
      }
      var r := BuildRow(headers, values);
      assert r == p + [last];
      forall i | 0 <= i < |headers| ensures r[i] == (headers[i], ValueAt(values, i)) {
        if i < n {
          assert r[i] == p[i] && init[i] == headers[i];
        }
      }
    }
  }

  lemma AssignKeysPresent(row: Record, key: string, value: string, h: string)
    requires DistinctKeys(row) && Present(row, key)
    ensures Present(Assign(row, key, value), h) <==> h == key || Present(row, h)
  {
    var r := Assign(row, key, value);
    if Present(r, h) {
      var i :| 0 <= i < |r| && r[i].0 == h;
      assert r[i] == if row[i].0 == key then (key, value) else row[i];
    }
    if Present(row, h) {
      var i :| 0 <= i < |row| && row[i].0 == h;
      assert r[i] == if row[i].0 == key then (key, value) else row[i];
    }
    if h == key {
      var i :| 0 <= i < |row| && row[i].0 == key;
      assert r[i] == (key, value);
    }
  }

  lemma AssignKeysAbsent(row: Record, key: string, value: string, h: string)
    requires DistinctKeys(row) && !Present(row, key)
    ensures Present(Assign(row, key, value), h) <==> h == key || Present(row, h)
  {
    var r := Assign(row, key, value);
    assert r == row + [(key, value)];
    if Present(r, h) {
      var i :| 0 <= i < |r| && r[i].0 == h;
      if i < |row| {
        assert r[i] == row[i];
      }
    }
    if Present(row, h) {
      var i :| 0 <= i < |row| && row[i].0 == h;
      assert r[i] == row[i];
    }
    assert r[|row|] == (key, value);
  }

  /** After `row[key] = value` the keys are the old ones and `key`. */
  lemma AssignKeys(row: Record, key: string, value: string, h: string)
    requires DistinctKeys(row)
    ensures Present(Assign(row, key, value), h) <==> h == key || Present(row, h)
  {
    if Present(row, key) {
      AssignKeysPresent(row, key, value, h);
    } else {
      AssignKeysAbsent(row, key, value, h);
    }
  }

  /** Whatever the headers, repeated or not, the row object's keys are exactly the headers. */
  lemma {:induction false} BuildRowKeys(headers: seq<string>, values: seq<string>, h: string)
    ensures Present(BuildRow(headers, values), h) <==> h in headers
    decreases |headers|
  {
    if headers != [] {
      var n := |headers| - 1;
      var init := headers[..n];
      BuildRowKeys(init, values, h);
      AssignKeys(BuildRow(init, values), headers[n], ValueAt(values, n), h);
      assert headers == init + [headers[n]];
    }
  }

  predicate HasBar(line: string) {
    Includes(line, "|")
  }

  predicate NonEmpty(s: string) {
    s != ""
  }

  /** `line.split('|').map(v => v.trim()).filter(v => v)`. */
  function Cells(line: string): seq<string> {
    Filter(NonEmpty, Map(Trim, Split(line, '|')))
  }

  /** `content.split('\n').filter(line => line.includes('|'))`. */
  function TableLines(content: string): seq<string> {
    Filter(HasBar, Split(content, '\n'))
  }

  /** The row object of one data line. */
  function ParseLine(headers: seq<string>, line: string): Record {
    BuildRow(headers, Cells(line))
  }

  /** `parseTableData(content)`: headers from the first `|`-line, the second skipped, one row
      object per later `|`-line. */
  function ParseTableData(content: string): (r: seq<Record>)
    ensures |TableLines(content)| < 2 ==> r == []
    ensures |TableLines(content)| >= 2 ==> |r| == |TableLines(content)| - 2
    ensures forall k :: 0 <= k < |r| ==> r[k] == ParseLine(Cells(TableLines(content)[0]), TableLines(content)[k + 2])
  {
    var lines := TableLines(content);
    if |lines| < 2 then []
    else
      var headers := Cells(lines[0]);
      var r := Map((line: string) => ParseLine(headers, line), lines[2..]);
      assert forall k :: 0 <= k < |r| ==> lines[2..][k] == lines[k + 2];
      r
  }

  /** Every parsed row object has exactly the header keys, each once. */
  lemma ParsedRowKeys(content: string, k: nat)
    requires k < |ParseTableData(content)|
    ensures var row := ParseTableData(content)[k];
            var headers := Cells(TableLines(content)[0]);
            && DistinctKeys(row)
            && (forall h :: Present(row, h) <==> h in headers)
  {
    var headers := Cells(TableLines(content)[0]);
    forall h ensures Present(ParseTableData(content)[k], h) <==> h in headers {
      BuildRowKeys(headers, Cells(TableLines(content)[k + 2]), h);
    }
  }

  /** `hasTableData`. */
  predicate HasTableData(content: string) {
    Includes(content, "|") && (Includes(content, "---") || Includes(content, "━━"))
  }

  // The two logs `sendMessage` keeps

  function Min(a: nat, b: nat): nat {
    if a <= b then a else b
  }

  /** `[x, ...xs].slice(0, cap)`: the new entry first, then the old ones, at most `cap` in all. */
  function PrependCapped<T>(x: T, xs: seq<T>, cap: nat): (r: seq<T>)
    ensures |r| == Min(cap, |xs| + 1)
    ensures cap > 0 ==> r[0] == x && r[1..] == xs[..|r| - 1]
    ensures cap == 0 ==> r == []
  {
    var m := Min(cap, |xs| + 1);
    var r := ([x] + xs)[..m];
    assert cap > 0 ==> r[1..] == xs[..m - 1];
    r
  }

  function Reversed<T>(xs: seq<T>): (r: seq<T>)
    ensures |r| == |xs| && forall i :: 0 <= i < |xs| ==> r[i] == xs[|xs| - 1 - i]
  {
    seq(|xs|, i requires 0 <= i < |xs| => xs[|xs| - 1 - i])
  }

  /** The log after entering `items` one by one, the oldest first, into `log`. */
  function Logged<T>(log: seq<T>, items: seq<T>, cap: nat): seq<T>
    decreases |items|
  {
    if items == [] then log
    else PrependCapped(items[|items| - 1], Logged(log, items[..|items| - 1], cap), cap)
  }

  /** A capped log holds the latest `cap` entries, newest first, then what it held before,
      up to the cap. */
  lemma {:induction false} LoggedIsLatest<T>(log: seq<T>, items: seq<T>, cap: nat)
    requires |log| <= cap
    ensures Logged(log, items, cap) == (Reversed(items) + log)[..Min(cap, |items| + |log|)]
    decreases |items|
  {
    if items != [] {
      var n := |items| - 1;
      LoggedIsLatest(log, items[..n], cap);
      var before := Logged(log, items[..n], cap);
      var all := Reversed(items) + log;
      assert Reversed(items) == [items[n]] + Reversed(items[..n]);
      assert all == [items[n]] + (Reversed(items[..n]) + log);
      if cap > 0 {
        assert before == (Reversed(items[..n]) + log)[..Min(cap, n + |log|)];
      }
    }
  }

  const HistoryCap := 20

  const StatsCap := 50

  /** One entry of the performance log. `executionTime` and `timestamp` come from the clock. */
  datatype QueryStat = QueryStat(query: string, executionTime: int, timestamp: int, resultCount: nat)

  /** How the call to the agent ended: with a reply text, or by throwing. */
  datatype Response = Returned(text: string) | Threw

  /** What the chat page keeps between messages. */
  datatype PageState = PageState(messages: seq<ChatMessage>, history: seq<string>, stats: seq<QueryStat>, queryCount: nat)

  /** The literal apology of the `catch` branch, in two pieces. */
  const Apology := "Sorry, there was an error processing your query." + " Please try again."

  /** The logs within their caps. */
  predicate WithinCaps(s: PageState) {
    |s.history| <= HistoryCap && |s.stats| <= StatsCap
  }

  /** The reply is truthy: `if (response)`. */
  predicate Answered(response: Response) {
    response.Returned? && response.text != ""
  }

  /** `sendMessage` for `input`, given how the agent call ended, the time it took and the
      time at its end. `!inputMessage.trim()` is `AllSpace(input)` (`Text.TrimAllSpace`). */
  function Send(s: PageState, input: string, response: Response, elapsed: int, now: int): (r: PageState)
    ensures AllSpace(input) ==> r == s
    ensures !AllSpace(input) && Answered(response) ==>
      && r.messages == s.messages + [ChatMessage(Human, input), ChatMessage(Ai, response.text)]
      && r.history == PrependCapped(input, s.history, HistoryCap)
      && r.stats == PrependCapped(QueryStat(input, elapsed, now, |ParseTableData(response.text)|), s.stats, StatsCap)
      && r.queryCount == s.queryCount + 1
    ensures !AllSpace(input) && !Answered(response) ==>
      && r.messages == s.messages + [ChatMessage(Human, input)] + (if response.Threw? then [ChatMessage(Ai, Apology)] else [])
      && r.history == s.history && r.stats == s.stats && r.queryCount == s.queryCount
    ensures WithinCaps(s) ==> WithinCaps(r)
  {
    if AllSpace(input) then s
    else
      var asked := s.messages + [ChatMessage(Human, input)];
      match response
      case Threw => s.(messages := asked + [ChatMessage(Ai, Apology)])
      case Returned(text) =>
        if text == "" then s.(messages := asked)
        else
          var stat := QueryStat(input, elapsed, now, |ParseTableData(text)|);
          PageState(asked + [ChatMessage(Ai, text)], PrependCapped(input, s.history, HistoryCap),
                    PrependCapped(stat, s.stats, StatsCap), s.queryCount + 1)
  }
}
