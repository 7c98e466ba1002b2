/** nmcli's terse output: fields joined by colons, with `:` and `\` escaped by a backslash. */
module Terse {

  const COLON: char := ':'
  const BACKSLASH: char := '\\'

  /** The loop's variables in splitTerse. */
  datatype State = State(fields: seq<string>, cur: string, escaped: bool)

  function Feed(s: State, r: char): State {
    if s.escaped then s.(cur := s.cur + [r], escaped := false)
    else if r == BACKSLASH then s.(escaped := true)
    else if r == COLON then State(s.fields + [s.cur], "", false)
    else s.(cur := s.cur + [r])
  }

  function FeedAll(s: State, line: string): State
    decreases |line|
  {
    if line == "" then s else FeedAll(Feed(s, line[0]), line[1..])
  }

  function Split(line: string): seq<string> {
    var s := FeedAll(State([], "", false), line);
    s.fields + [s.cur]
  }

  // ---- What nmcli writes ----

  function Escape(field: string): string {
    if field == "" then ""
    else (if field[0] == COLON || field[0] == BACKSLASH then [BACKSLASH, field[0]] else [field[0]]) + Escape(field[1..])
  }

  function Join(fields: seq<string>): string
    requires fields != []
  {
    if |fields| == 1 then Escape(fields[0]) else Escape(fields[0]) + [COLON] + Join(fields[1..])
  }

  lemma {:induction false} FeedAppend(s: State, a: string, b: string)
    ensures FeedAll(s, a + b) == FeedAll(FeedAll(s, a), b)
    decreases |a|
  {
    if a == "" {
      assert a + b == b;
    } else {
      assert (a + b)[1..] == a[1..] + b;
      FeedAppend(Feed(s, a[0]), a[1..], b);
    }
  }

  lemma {:induction false} FeedEscaped(s: State, field: string)
    requires !s.escaped
    ensures FeedAll(s, Escape(field)) == s.(cur := s.cur + field)
    decreases |field|
  {
    if field == "" {
      assert s.cur + field == s.cur;
    } else {
      var c := field[0];
      var head := if c == COLON || c == BACKSLASH then [BACKSLASH, c] else [c];
      FeedAppend(s, head, Escape(field[1..]));
      var next := s.(cur := s.cur + [c]);
      if |head| == 2 {
        assert head[1..] == [c] && [c][1..] == "";
        assert FeedAll(Feed(s, BACKSLASH), [c]) == next;
      } else {
        assert head[1..] == "";
      }
      assert FeedAll(s, head) == next;
      FeedEscaped(next, field[1..]);
      assert s.cur + [c] + field[1..] == s.cur + field;
    }
  }

  lemma {:induction false} FeedJoined(done: seq<string>, fields: seq<string>)
    requires fields != []
    ensures FeedAll(State(done, "", false), Join(fields))
         == State(done + fields[..|fields| - 1], fields[|fields| - 1], false)
    decreases |fields|
  {
    var s := State(done, "", false);
    var f := fields[0];
    FeedEscaped(s, f);
    assert "" + f == f;
    if |fields| == 1 {
      assert done + fields[..0] == done;
    } else {
      var rest := fields[1..];
      var after := FeedAll(s, Escape(f));
      assert Join(fields) == Escape(f) + ([COLON] + Join(rest));
      FeedAppend(s, Escape(f), [COLON] + Join(rest));
      assert ([COLON] + Join(rest))[1..] == Join(rest);
      FeedJoined(done + [f], rest);
      assert done + [f] + rest[..|rest| - 1] == done + fields[..|fields| - 1];
    }
  }

  /** Splitting undoes escaping and joining, for every non-empty list of strings. */
  lemma {:induction false} SplitUndoesJoin(fields: seq<string>)
    requires fields != []
    ensures Split(Join(fields)) == fields
  {
    FeedJoined([], fields);
    assert [] + fields[..|fields| - 1] + [fields[|fields| - 1]] == fields;
  }

  // ---- How many fields a line has ----

  /** The length of the run of backslashes that ends just before position i. */
  function Backslashes(line: string, i: nat): nat
    requires i <= |line|
  {
    if i == 0 || line[i - 1] != BACKSLASH then 0 else 1 + Backslashes(line, i - 1)
  }

  /** A character is escaped when an odd run of backslashes precedes it. */
  predicate EscapedAt(line: string, i: nat)
    requires i <= |line|
  {
    Backslashes(line, i) % 2 == 1
  }

  function UnescapedColons(line: string, n: nat): nat
    requires n <= |line|
  {
    if n == 0 then 0
    else UnescapedColons(line, n - 1) + (if line[n - 1] == COLON && !EscapedAt(line, n - 1) then 1 else 0)
  }

  /**
   After any prefix the loop's flag says whether the next character is escaped, and it has seen one
   field per unescaped colon.
   */
  lemma {:induction false} FlagIsParity(line: string, n: nat)
    requires n <= |line|
    ensures var s := FeedAll(State([], "", false), line[..n]);
      s.escaped == EscapedAt(line, n) && |s.fields| == UnescapedColons(line, n)
  {
    if n == 0 {
      assert line[..0] == "";
    } else {
      FlagIsParity(line, n - 1);
      var start := State([], "", false);
      assert line[..n] == line[..n - 1] + [line[n - 1]];
      FeedAppend(start, line[..n - 1], [line[n - 1]]);
      assert [line[n - 1]][1..] == "";
      if line[n - 1] == BACKSLASH {
        assert Backslashes(line, n) == 1 + Backslashes(line, n - 1);
      } else {
        assert Backslashes(line, n) == 0;
      }
    }
  }

  /** For any line at all: one field more than it has unescaped colons. */
  lemma {:induction false} FieldCount(line: string)
    ensures |Split(line)| == 1 + UnescapedColons(line, |line|)
  {
    FlagIsParity(line, |line|);
    assert line[..|line|] == line;
  }

  // ---- What the fields of a line hold ----

  /** What a range of the line gives its field: the escaped characters, and those that neither escape nor separate. */
  function Kept(line: string, start: nat, n: nat): string
    requires start <= n <= |line|
    decreases n
  {
    if start == n then ""
    else
      var c := line[n - 1];
      Kept(line, start, n - 1) + if EscapedAt(line, n - 1) || (c != COLON && c != BACKSLASH) then [c] else ""
  }

  /** Where the field that position n is in begins: after the last unescaped colon before it. */
  function FieldStart(line: string, n: nat): (start: nat)
    requires n <= |line|
    ensures start <= n
  {
    if n == 0 then 0
    else if line[n - 1] == COLON && !EscapedAt(line, n - 1) then n
    else FieldStart(line, n - 1)
  }

  /** After any prefix the loop holds what that prefix gives the current field. */
  lemma {:induction false} CurrentField(line: string, n: nat)
    requires n <= |line|
    ensures FeedAll(State([], "", false), line[..n]).cur == Kept(line, FieldStart(line, n), n)
  {
    if n == 0 {
      assert line[..0] == "";
    } else {
      hide EscapedAt;
      CurrentField(line, n - 1);
      FlagIsParity(line, n - 1);
      OneMoreChar(line, n - 1);
    }
  }

  lemma {:induction false} OneMoreChar(line: string, n: nat)
    requires n < |line|
    ensures FeedAll(State([], "", false), line[..n + 1]) == Feed(FeedAll(State([], "", false), line[..n]), line[n])
  {
    assert line[..n + 1] == line[..n] + [line[n]];
    FeedAppend(State([], "", false), line[..n], [line[n]]);
    assert [line[n]][1..] == "";
  }

  /** Fields already split off stay. */
  lemma {:induction false} FieldsStay(s: State, line: string, k: nat)
    requires k < |s.fields|
    ensures |FeedAll(s, line).fields| >= |s.fields| && FeedAll(s, line).fields[k] == s.fields[k]
    decreases |line|
  {
    if line != "" {
      FieldsStay(Feed(s, line[0]), line[1..], k);
    }
  }

  /**
   For any line at all: the field that an unescaped colon ends holds what its range of the line keeps, and
   so does the last field.
   */
  lemma {:induction false} FieldsHoldWhatIsKept(line: string, n: nat)
    requires n <= |line| && (n == |line| || (line[n] == COLON && !EscapedAt(line, n)))
    ensures UnescapedColons(line, n) < |Split(line)|
    ensures Split(line)[UnescapedColons(line, n)] == Kept(line, FieldStart(line, n), n)
  {
    var start := State([], "", false);
    CurrentField(line, n);
    FlagIsParity(line, n);
    if n == |line| {
      assert line[..n] == line;
    } else {
      OneMoreChar(line, n);
      var k := UnescapedColons(line, n);
      var s := FeedAll(start, line[..n + 1]);
      assert s.fields[k] == Kept(line, FieldStart(line, n), n);
      FeedAppend(start, line[..n + 1], line[n + 1..]);
      assert line[..n + 1] + line[n + 1..] == line;
      FieldsStay(s, line[n + 1..], k);
    }
  }

  // ---- splitTerse ----

  method SplitTerse(line: string) returns (fields: seq<string>)
    ensures fields == Split(line)
  {
    fields := [];
    var cur, escaped := "", false;
    assert line[0..] == line;
    for i := 0 to |line|
      invariant FeedAll(State(fields, cur, escaped), line[i..]) == FeedAll(State([], "", false), line)
    {
      var r := line[i];
      if escaped {
        cur := cur + [r];
        escaped := false;
      } else if r == BACKSLASH {
        escaped := true;
      } else if r == COLON {
        fields := fields + [cur];
        cur := "";
      } else {
        cur := cur + [r];
      }
    }
    fields := fields + [cur];
  }
}
