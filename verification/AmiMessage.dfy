/** AMI messages: the text an action is printed as, and the parser of received frames. */
module AmiMessage {
  import opened Wrappers
  import opened Strings
  import opened Splitting

  const CRLF := "\r\n"
  const FRAME_END := "\r\n\r\n"

  type Message = map<string, string>
  type Field = (string, string)

  // ---- printing ----

  /** `key: value` CRLF for each field, then an empty line. */
  function Lines(fields: seq<Field>): string {
    if fields == [] then "" else fields[0].0 + ": " + fields[0].1 + CRLF + Lines(fields[1..])
  }

  function Printed(fields: seq<Field>): string {
    Lines(fields) + CRLF
  }

  function ActionFields(action: string, actionId: string, params: seq<Field>): seq<Field> {
    [("Action", action), ("ActionID", actionId)] + params
  }

  /** The text sendAction writes, built line by line. */
  method PrintAction(action: string, actionId: string, params: seq<Field>) returns (raw: string)
    ensures raw == Printed(ActionFields(action, actionId, params))
  {
    raw := "Action: " + action + CRLF + "ActionID: " + actionId + CRLF;
    LinesAppend([("Action", action)], [("ActionID", actionId)]);
    assert Lines([("Action", action)]) == "Action" + ": " + action + CRLF + "";
    assert Lines([("ActionID", actionId)]) == "ActionID" + ": " + actionId + CRLF + "";
    assert [("Action", action)] + [("ActionID", actionId)] == ActionFields(action, actionId, params[..0]);
    for i := 0 to |params|
      invariant raw == Lines(ActionFields(action, actionId, params[..i]))
    {
      var p := params[i];
      LinesAppend(ActionFields(action, actionId, params[..i]), [p]);
      assert Lines([p]) == p.0 + ": " + p.1 + CRLF + "";
      assert ActionFields(action, actionId, params[..i]) + [p] == ActionFields(action, actionId, params[..i + 1]);
      raw := raw + (p.0 + ": " + p.1 + CRLF);
    }
    assert params[..|params|] == params;
    raw := raw + CRLF;
  }

  lemma {:induction false} LinesAppend(a: seq<Field>, b: seq<Field>)
    ensures Lines(a + b) == Lines(a) + Lines(b)
  {
    if a == [] {
      assert a + b == b;
    } else {
      assert (a + b)[1..] == a[1..] + b;
      LinesAppend(a[1..], b);
    }
  }

  // ---- parsing ----

  /** The parser's state after one more line: the current key and the fields so far. */
  function Absorb(key: string, msg: Message, line: string): (string, Message) {
    var colon := Find(line, ": ");
    if colon.Some? then
      var k := line[..colon.value];
      (k, msg[k := TrimEnd(line[colon.value + 2..])])
    else if |key| > 0 && key in msg && StartsWith(line, " ") then
      (key, msg[key := msg[key] + "\n" + Trim(line)])
    else (key, msg)
  }

  function AbsorbAll(key: string, msg: Message, lines: seq<string>): Message
    decreases |lines|
  {
    if lines == [] then msg
    else var s := Absorb(key, msg, lines[0]); AbsorbAll(s.0, s.1, lines[1..])
  }

  function Parsed(raw: string): Message {
    AbsorbAll("", map[], Split(raw, CRLF))
  }

  method ParseAmiMessage(raw: string) returns (msg: Message)
    ensures msg == Parsed(raw)
  {
    var lines := Split(raw, CRLF);
    var key := "";
    msg := map[];
    for i := 0 to |lines|
      invariant |key| > 0 ==> key in msg
      invariant AbsorbAll(key, msg, lines[i..]) == Parsed(raw)
    {
      var line := lines[i];
      assert lines[i..][1..] == lines[i + 1..];
      var colon := Find(line, ": ");
      if colon.Some? {
        key := line[..colon.value];
        var value := TrimEnd(line[colon.value + 2..]);
        msg := msg[key := value];
      } else if |key| > 0 && StartsWith(line, " ") {
        msg := msg[key := msg[key] + "\n" + Trim(line)];
      }
    }
  }

  // ---- the round trip ----

  predicate NoBreak(s: string) {
    forall i :: 0 <= i < |s| ==> s[i] != '\r' && s[i] != '\n'
  }

  /** A field that sendAction prints so that it can be read back. */
  predicate Clean(f: Field) {
    && NoBreak(f.0) && Find(f.0, ": ").None?
    && NoBreak(f.1) && (|f.1| > 0 ==> !IsSpace(f.1[|f.1| - 1]))
  }

  predicate AllClean(fields: seq<Field>) {
    forall i :: 0 <= i < |fields| ==> Clean(fields[i])
  }

  /** The fields as a map; a later field of the same name wins. */
  function FieldMap(msg: Message, fields: seq<Field>): Message
    decreases |fields|
  {
    if fields == [] then msg else FieldMap(msg[fields[0].0 := fields[0].1], fields[1..])
  }

  function LineOf(f: Field): string {
    f.0 + ": " + f.1
  }

  function LinesOf(fields: seq<Field>): (r: seq<string>)
    ensures |r| == |fields| && forall i :: 0 <= i < |r| ==> r[i] == LineOf(fields[i])
  {
    seq(|fields|, i requires 0 <= i < |fields| => LineOf(fields[i]))
  }

  lemma {:induction false} NoEarlier(s: string, p: string, i: nat)
    requires Find(s, p).None? && i <= |s|
    ensures !StartsWith(s[i..], p)
  {
    assert s[0..] == s;
    if i > 0 {
      assert s[1..][i - 1..] == s[i..];
      NoEarlier(s[1..], p, i - 1);
    }
  }

  /** The first ": " of a printed line is the one after its key. */
  lemma ColonFound(f: Field)
    requires Clean(f)
    ensures Find(LineOf(f), ": ") == Some(|f.0|)
  {
    var k, tail := f.0, ": " + f.1;
    assert LineOf(f) == k + tail;
    assert tail[..2] == ": ";
    forall i | 0 <= i < |k|
      ensures !StartsWith((k + tail)[i..], ": ")
    {
      NoEarlier(k, ": ", i);
      if i + 2 <= |k| {
        assert (k + tail)[i..][..2] == k[i..][..2];
      } else {
        assert (k + tail)[i..][1] == ':';
      }
    }
    FindSkip(k, tail, ": ");
  }

  lemma AbsorbClean(key: string, msg: Message, f: Field)
    requires Clean(f)
    ensures Absorb(key, msg, LineOf(f)) == (f.0, msg[f.0 := f.1])
  {
    ColonFound(f);
    assert LineOf(f)[..|f.0|] == f.0;
    assert LineOf(f)[|f.0| + 2..] == f.1;
  }

  lemma {:induction false} AbsorbAllClean(key: string, msg: Message, fields: seq<Field>)
    requires AllClean(fields)
    ensures AbsorbAll(key, msg, LinesOf(fields)) == FieldMap(msg, fields)
    decreases |fields|
  {
    if fields != [] {
      AbsorbClean(key, msg, fields[0]);
      assert LinesOf(fields)[1..] == LinesOf(fields[1..]);
      AbsorbAllClean(fields[0].0, msg[fields[0].0 := fields[0].1], fields[1..]);
    }
  }

  /** A continuation line: an indented line that starts no field of its own. */
  predicate IsContinuation(line: string) {
    StartsWith(line, " ") && Find(line, ": ").None?
  }

  function Continued(value: string, more: seq<string>): string
    decreases |more|
  {
    if more == [] then value else Continued(value + "\n" + Trim(more[0]), more[1..])
  }

  /** Continuation lines extend the value of the field before them, one line each. */
  lemma {:induction false} AbsorbContinued(key: string, msg: Message, more: seq<string>)
    requires |key| > 0 && key in msg && forall i :: 0 <= i < |more| ==> IsContinuation(more[i])
    ensures AbsorbAll(key, msg, more) == msg[key := Continued(msg[key], more)]
    decreases |more|
  {
    if |more| > 0 {
      hide Find, Trim;
      assert IsContinuation(more[0]);
      var msg' := msg[key := msg[key] + "\n" + Trim(more[0])];
      assert Absorb(key, msg, more[0]) == (key, msg');
      AbsorbContinued(key, msg', more[1..]);
      assert msg'[key := Continued(msg'[key], more[1..])] == msg[key := Continued(msg[key], more)];
    } else {
      assert msg == msg[key := msg[key]];
    }
  }

  /** A multi-line field is read as its first line and its trimmed continuation lines; fields before it stand. */
  lemma {:induction false} ParseMultiline(key: string, msg: Message, fields: seq<Field>, last: Field, more: seq<string>)
    requires AllClean(fields) && Clean(last) && |last.0| > 0
    requires forall i :: 0 <= i < |more| ==> IsContinuation(more[i])
    ensures AbsorbAll(key, msg, LinesOf(fields) + ([LineOf(last)] + more))
            == FieldMap(msg, fields)[last.0 := Continued(last.1, more)]
    decreases |fields|
  {
    var lines, tail := LinesOf(fields), [LineOf(last)] + more;
    if |fields| == 0 {
      assert lines + tail == tail && tail[1..] == more;
      AbsorbClean(key, msg, last);
      AbsorbContinued(last.0, msg[last.0 := last.1], more);
    } else {
      AbsorbClean(key, msg, fields[0]);
      assert (lines + tail)[1..] == LinesOf(fields[1..]) + tail;
      ParseMultiline(fields[0].0, msg[fields[0].0 := fields[0].1], fields[1..], last, more);
    }
  }

  lemma LineClean(f: Field)
    requires Clean(f)
    ensures NoBreak(LineOf(f)) && |LineOf(f)| >= 2
  {
  }

  /** No separator that begins with CR starts inside a line without breaks. */
  lemma BreakFound(line: string, rest: string, sep: string)
    requires NoBreak(line) && |sep| > 0 && sep[0] == '\r' && StartsWith(rest, sep)
    ensures Find(line + rest, sep) == Some(|line|)
  {
    forall i | 0 <= i < |line|
      ensures !StartsWith((line + rest)[i..], sep)
    {
      assert (line + rest)[i..][0] == line[i];
    }
    FindSkip(line, rest, sep);
  }

  /** The frame of a printed message: its lines, without the closing empty line. */
  function Frame(fields: seq<Field>): string
    requires fields != []
  {
    if |fields| == 1 then LineOf(fields[0]) else LineOf(fields[0]) + CRLF + Frame(fields[1..])
  }

  lemma {:induction false} PrintedIsFrame(fields: seq<Field>)
    requires fields != []
    ensures Printed(fields) == Frame(fields) + FRAME_END
  {
    if |fields| == 1 {
      assert Lines(fields[1..]) == "";
      assert Printed(fields) == LineOf(fields[0]) + (CRLF + CRLF);
      assert CRLF + CRLF == FRAME_END;
    } else {
      var line, rest := LineOf(fields[0]), Lines(fields[1..]);
      PrintedIsFrame(fields[1..]);
      assert Printed(fields) == line + CRLF + (rest + CRLF);
      assert line + CRLF + (Frame(fields[1..]) + FRAME_END) == line + CRLF + Frame(fields[1..]) + FRAME_END;
    }
  }

  lemma {:induction false} FrameLines(fields: seq<Field>)
    requires fields != [] && AllClean(fields)
    ensures Split(Frame(fields), CRLF) == LinesOf(fields)
  {
    var line := LineOf(fields[0]);
    LineClean(fields[0]);
    if |fields| == 1 {
      NoBreakNoFind(line, CRLF);
    } else {
      var rest := Frame(fields[1..]);
      hide Find, Pieces, Remainder, NoBreak, LineOf;
      FrameLines(fields[1..]);
      assert line + (CRLF + rest) == line + CRLF + rest;
      BreakFound(line, CRLF + rest, CRLF);
      PiecesFirst(line, rest, CRLF);
      assert [line] + LinesOf(fields[1..]) == LinesOf(fields);
    }
  }

  lemma {:induction false} NoBreakNoFind(s: string, sep: string)
    requires NoBreak(s) && |sep| > 0 && sep[0] == '\r'
    ensures Find(s, sep).None?
  {
    if s != [] { NoBreakNoFind(s[1..], sep); }
  }

  /** A printed message ends at its first empty line. */
  lemma {:induction false} FrameFound(fields: seq<Field>, rest: string)
    requires fields != [] && AllClean(fields)
    ensures Find(Frame(fields) + FRAME_END + rest, FRAME_END) == Some(|Frame(fields)|)
  {
    var line := LineOf(fields[0]);
    LineClean(fields[0]);
    if |fields| == 1 {
      assert Frame(fields) + FRAME_END + rest == line + (FRAME_END + rest);
      BreakFound(line, FRAME_END + rest, FRAME_END);
    } else {
      var next := Frame(fields[1..]);
      FrameFound(fields[1..], rest);
      FrameStart(fields[1..]);
      assert line + CRLF + next + FRAME_END + rest == (line + CRLF) + (next + FRAME_END + rest);
      NoFrameEnd(line, next + FRAME_END + rest);
      FindSkip(line + CRLF, next + FRAME_END + rest, FRAME_END);
    }
  }

  lemma FrameStart(fields: seq<Field>)
    requires fields != [] && AllClean(fields)
    ensures |Frame(fields)| > 0 && Frame(fields)[0] != '\r'
  {
    LineClean(fields[0]);
    assert Frame(fields)[0] == LineOf(fields[0])[0];
  }

  /** The end of a line is not the end of its frame when another line follows. */
  lemma NoFrameEnd(line: string, tail: string)
    requires NoBreak(line) && |tail| > 0 && tail[0] != '\r'
    ensures forall i :: 0 <= i < |line + CRLF| ==> !StartsWith(((line + CRLF) + tail)[i..], FRAME_END)
  {
    forall i | 0 <= i < |line + CRLF|
      ensures !StartsWith(((line + CRLF) + tail)[i..], FRAME_END)
    {
      NoFrameEndAt(line, tail, i);
    }
  }

  lemma NoFrameEndAt(line: string, tail: string, i: nat)
    requires NoBreak(line) && |tail| > 0 && tail[0] != '\r' && i < |line| + 2
    ensures !StartsWith(((line + CRLF) + tail)[i..], FRAME_END)
  {
    var s := ((line + CRLF) + tail)[i..];
    if i < |line| {
      assert s[0] == line[i];
    } else if i == |line| {
      assert s[2] == tail[0];
    } else {
      assert s[0] == '\n';
    }
  }

  /** A frame printed by sendAction parses back to the same fields. */
  lemma ParsePrinted(fields: seq<Field>)
    requires fields != [] && AllClean(fields)
    ensures Parsed(Frame(fields)) == FieldMap(map[], fields)
  {
    FrameLines(fields);
    AbsorbAllClean("", map[], fields);
  }

  function PrintedAll(messages: seq<seq<Field>>): string {
    if messages == [] then "" else Printed(messages[0]) + PrintedAll(messages[1..])
  }

  function Frames(messages: seq<seq<Field>>): (r: seq<string>)
    requires forall i :: 0 <= i < |messages| ==> messages[i] != []
    ensures |r| == |messages| && forall i :: 0 <= i < |r| ==> r[i] == Frame(messages[i])
  {
    seq(|messages|, i requires 0 <= i < |messages| => Frame(messages[i]))
  }

  lemma FramesCons(messages: seq<seq<Field>>)
    requires messages != [] && forall i :: 0 <= i < |messages| ==> messages[i] != []
    ensures Frames(messages) == [Frame(messages[0])] + Frames(messages[1..])
  {
  }

  /** A stream of printed messages splits into exactly their frames. */
  lemma {:induction false} StreamFrames(messages: seq<seq<Field>>)
    requires forall i :: 0 <= i < |messages| ==> messages[i] != [] && AllClean(messages[i])
    ensures Pieces(PrintedAll(messages), FRAME_END) == Frames(messages)
    ensures Remainder(PrintedAll(messages), FRAME_END) == ""
  {
    if messages == [] {
      assert Find("", FRAME_END).None?;
    } else {
      hide Frame, Printed, Find, Pieces, Remainder, AllClean;
      var rest := PrintedAll(messages[1..]);
      StreamFrames(messages[1..]);
      PrintedIsFrame(messages[0]);
      FrameFound(messages[0], rest);
      PiecesFirst(Frame(messages[0]), rest, FRAME_END);
      FramesCons(messages);
    }
  }
}
