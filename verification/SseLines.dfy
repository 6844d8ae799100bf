/** Rewriting the lines of a server-sent event stream and reading token usage from them. */
module SseLines {
  import opened Wrappers
  import opened Text

  /** Numbers that are not integers are kept as their text. */
  datatype Json =
    | Null
    | Bool(flag: bool)
    | Int(number: int)
    | Float(text: string)
    | Str(chars: string)
    | Array(items: seq<Json>)
    | Object(fields: seq<(string, Json)>)

  function Lookup(fields: seq<(string, Json)>, key: string): Option<Json> {
    if fields == [] then None
    else if fields[0].0 == key then Some(fields[0].1)
    else Lookup(fields[1..], key)
  }

  /** Assignment to a key of an insertion-ordered dictionary. */
  function SetField(fields: seq<(string, Json)>, key: string, value: Json): seq<(string, Json)> {
    if fields == [] then [(key, value)]
    else if fields[0].0 == key then [(key, value)] + fields[1..]
    else [fields[0]] + SetField(fields[1..], key, value)
  }

  function Keys(fields: seq<(string, Json)>): (keys: seq<string>)
    ensures |keys| == |fields|
  {
    seq(|fields|, i requires 0 <= i < |fields| => fields[i].0)
  }

  lemma KeysOfCons(field: (string, Json), fields: seq<(string, Json)>)
    ensures Keys([field] + fields) == [field.0] + Keys(fields)
  {
  }

  lemma {:induction false} SetFieldSetsOne(fields: seq<(string, Json)>, key: string, value: Json, other: string)
    ensures Lookup(SetField(fields, key, value), other) == if other == key then Some(value) else Lookup(fields, other)
    ensures Keys(SetField(fields, key, value))
         == if Lookup(fields, key).Some? then Keys(fields) else Keys(fields) + [key]
  {
    if fields == [] {
      assert Keys(SetField(fields, key, value)) == [key];
    } else {
      var first, rest := fields[0], fields[1..];
      assert fields == [first] + rest;
      KeysOfCons(first, rest);
      if first.0 == key {
        assert SetField(fields, key, value)[1..] == rest;
        KeysOfCons((key, value), rest);
      } else {
        SetFieldSetsOne(rest, key, value, other);
        assert SetField(fields, key, value)[1..] == SetField(rest, key, value);
        KeysOfCons(first, SetField(rest, key, value));
      }
    }
  }

  lemma {:induction false} SetFieldTwice(fields: seq<(string, Json)>, key: string, value: Json)
    ensures SetField(SetField(fields, key, value), key, value) == SetField(fields, key, value)
  {
    if fields != [] && fields[0].0 != key {
      SetFieldTwice(fields[1..], key, value);
      assert SetField(fields, key, value)[1..] == SetField(fields[1..], key, value);
    }
  }

  /** `Malformed` text is refused in the way a caller expects; `Raises` is any other exception of the parser. */
  datatype Parse = Parsed(value: Json) | Malformed | Raises

  /** The text parser and compact printer of the host's JSON library; text that cannot be encoded is not printed. */
  datatype Codec = Codec(parse: string -> Parse, show: Json -> Option<string>)

  predicate HasBreak(s: string) {
    '\n' in s || '\r' in s
  }

  ghost predicate PrintsBack(codec: Codec, fields: seq<(string, Json)>) {
    var text := codec.show(Object(fields));
    text.Some? ==>
      && |text.value| >= 2 && text.value[0] == '{' && text.value[|text.value| - 1] == '}' && !HasBreak(text.value)
      && codec.parse(text.value) == Parsed(Object(fields))
  }

  ghost predicate PrintsModel(codec: Codec, text: string, model: string) {
    codec.parse(text).Parsed? && codec.parse(text).value.Object? ==>
      PrintsBack(codec, SetField(codec.parse(text).value.fields, "model", Str(model)))
  }

  /**
   What is assumed of them: an object that was parsed, with its model set, is printed, if at all, as one
   line between braces, and parsing that line gives the object back.
   */
  ghost predicate Faithful(codec: Codec) {
    forall text, model :: PrintsModel(codec, text, model)
  }

  predicate IsData(line: string) {
    "data:" <= line
  }

  function Value(line: string): string
    requires IsData(line)
  {
    LStrip(line[5..])
  }

  const DONE := "[DONE]"

  /** The JSON object carried by a data line, if there is one. */
  function Payload(codec: Codec, line: string): Option<seq<(string, Json)>> {
    if !IsData(line) || Value(line) == DONE then None
    else match codec.parse(Value(line))
      case Parsed(Object(fields)) => Some(fields)
      case _ => None
  }

  /** Parsing the line raises an exception that nothing between it and the reader of the stream catches. */
  predicate BreaksOff(codec: Codec, line: string) {
    IsData(line) && Value(line) != DONE && codec.parse(Value(line)).Raises?
  }

  /** The output line without its terminating newline; none if parsing or encoding raises. */
  function RewriteBody(codec: Codec, line: string, model: string): Option<string> {
    if !IsData(line) then Some(line)
    else if Value(line) == DONE then Some("data: [DONE]")
    else if BreaksOff(codec, line) then None
    else match Payload(codec, line)
      case Some(fields) =>
        (match codec.show(Object(SetField(fields, "model", Str(model))))
         case Some(text) => Some("data: " + text)
         case None => None)
      case None => Some(line)
  }

  function Rewrite(codec: Codec, line: string, model: string): Option<string> {
    match RewriteBody(codec, line, model)
    case Some(body) => Some(body + "\n")
    case None => None
  }

  /** The test that marks a stream as complete; it also strips the end of the line, which rewriting does not. */
  predicate IsDoneLine(line: string) {
    IsData(line) && Strip(line[5..]) == DONE
  }

  /** A line that ends the stream, spelled out; one followed by white space is parsed as well, so it must not raise there. */
  ghost predicate MarksEnd(codec: Codec, line: string) {
    exists a, b :: IsEndLine(line, a, b) && (b == [] || !codec.parse("[DONE]" + b).Raises?)
  }

  ghost predicate IsEndLine(line: string, a: string, b: string) {
    AllSpace(a) && AllSpace(b) && line == "data:" + a + "[DONE]" + b
  }

  lemma DataAndRest(rest: string)
    ensures IsData("data:" + rest) && ("data:" + rest)[5..] == rest
  {
  }

  lemma EndLineValue(line: string, a: string, b: string)
    requires IsEndLine(line, a, b)
    ensures IsDoneLine(line) && Value(line) == "[DONE]" + b
  {
    assert line == "data:" + (a + ("[DONE]" + b)) == "data:" + (a + "[DONE]" + b);
    DataAndRest(a + ("[DONE]" + b));
    LStripIs(a, "[DONE]" + b);
    StripIs(a, "[DONE]", b);
  }

  lemma Regroup(p: string, a: string, t: string, b: string)
    ensures p + (a + t + b) == p + a + t + b
  {
  }

  lemma DoneLineSplits(line: string) returns (a: string, b: string)
    requires IsDoneLine(line)
    ensures IsEndLine(line, a, b)
  {
    hide Strip, AllSpace;
    a, b := StripSplits(line[5..]);
    var p := line[..5];
    assert line == p + line[5..];
    Regroup(p, a, DONE, b);
  }

  /** Exactly the lines that end the stream are taken as its end. */
  lemma DoneIsReadIff(codec: Codec, line: string)
    ensures IsDoneLine(line) && !BreaksOff(codec, line) <==> MarksEnd(codec, line)
  {
    if IsDoneLine(line) && !BreaksOff(codec, line) {
      var a, b := DoneLineSplits(line);
      EndLineValue(line, a, b);
      assert b != [] ==> "[DONE]" + b != "[DONE]";
    }
    if MarksEnd(codec, line) {
      var a, b :| IsEndLine(line, a, b) && (b == [] || !codec.parse("[DONE]" + b).Raises?);
      EndLineValue(line, a, b);
      assert b == [] ==> "[DONE]" + b == "[DONE]";
    }
  }

  /** A line with another field is delivered as it came. */
  lemma OtherLineIsKept(codec: Codec, line: string, model: string)
    requires !("data:" <= line)
    ensures Rewrite(codec, line, model) == Some(line + "\n") && ExtractSseUsage(codec, line) == None && !BreaksOff(codec, line)
  {
  }

  /** What becomes of the line that carries this text, whatever white space stands before it. */
  lemma DataLineIs(codec: Codec, a: string, text: string, model: string)
    requires AllSpace(a) && (text == [] || !IsSpace(text[0])) && text != "[DONE]"
    ensures var line := "data:" + a + text;
            match codec.parse(text)
            case Raises => BreaksOff(codec, line) && Rewrite(codec, line, model) == None
            case Malformed =>
              !BreaksOff(codec, line) && Rewrite(codec, line, model) == Some(line + "\n") && ExtractSseUsage(codec, line) == None
            case Parsed(Object(fields)) =>
              && !BreaksOff(codec, line)
              && (match codec.show(Object(SetField(fields, "model", Str(model))))
                  case Some(shown) => Rewrite(codec, line, model) == Some("data: " + shown + "\n")
                  case None => Rewrite(codec, line, model) == None)
              && (ExtractSseUsage(codec, line).Some? <==> ExtractUsage(Lookup(fields, "usage")).source.UpstreamReported?)
              && (ExtractSseUsage(codec, line).Some? ==> ExtractSseUsage(codec, line).value == ExtractUsage(Lookup(fields, "usage")))
            case Parsed(_) =>
              !BreaksOff(codec, line) && Rewrite(codec, line, model) == Some(line + "\n") && ExtractSseUsage(codec, line) == None
  {
    assert "data:" + a + text == "data:" + (a + text);
    DataAndRest(a + text);
    LStripIs(a, text);
  }

  lemma EndLineIs(codec: Codec, a: string, model: string)
    requires AllSpace(a)
    ensures var line := "data:" + a + "[DONE]";
            !BreaksOff(codec, line) && Rewrite(codec, line, model) == Some("data: [DONE]\n") && ExtractSseUsage(codec, line) == None
  {
    var empty: string := [];
    assert "data:" + a + "[DONE]" + empty == "data:" + a + "[DONE]" && "[DONE]" + empty == "[DONE]";
    EndLineValue("data:" + a + "[DONE]", a, empty);
    assert "data: [DONE]" + "\n" == "data: [DONE]\n";
  }

  lemma PrintedValue(codec: Codec, fields: seq<(string, Json)>)
    requires PrintsBack(codec, fields) && codec.show(Object(fields)).Some?
    ensures var text := codec.show(Object(fields)).value;
            var line := "data: " + text;
            && IsData(line) && Value(line) == text && Value(line) != DONE && !HasBreak(line)
            && Payload(codec, line) == Some(fields) && !BreaksOff(codec, line)
  {
    var text := codec.show(Object(fields)).value;
    DataValue(text);
    JoinHasNoBreak("data: ", text);
    assert text[0] != DONE[0];
  }

  lemma JoinHasNoBreak(a: string, b: string)
    requires !HasBreak(a) && !HasBreak(b)
    ensures !HasBreak(a + b)
  {
  }

  lemma DataValue(text: string)
    requires text != [] && !IsSpace(text[0])
    ensures IsData("data: " + text) && Value("data: " + text) == text
  {
    assert ("data: " + text)[5..] == " " + text;
    LStripIsAll(" ", text);
  }

  lemma DoneValue()
    ensures IsData("data: [DONE]") && Value("data: [DONE]") == DONE
  {
    assert "data: [DONE]" == "data: " + DONE;
    DataValue(DONE);
  }

  /** Rewriting the object on a data line: the new line, if there is one, carries the object with `model` set. */
  lemma RewrittenObject(codec: Codec, line: string, model: string)
    requires Faithful(codec) && Payload(codec, line).Some? && RewriteBody(codec, line, model).Some?
    ensures var fields := SetField(Payload(codec, line).value, "model", Str(model));
            var body := RewriteBody(codec, line, model).value;
            && Some(body[6..]) == codec.show(Object(fields)) && body == "data: " + body[6..] && !HasBreak(body)
            && IsData(body) && Value(body) != DONE && !BreaksOff(codec, body) && Payload(codec, body) == Some(fields)
  {
    var fields := SetField(Payload(codec, line).value, "model", Str(model));
    assert PrintsModel(codec, Value(line), model);
    PrintedValue(codec, fields);
    var body := RewriteBody(codec, line, model).value;
    assert body == "data: " + codec.show(Object(fields)).value;
    assert body[6..] == codec.show(Object(fields)).value;
  }

  /** One output line for one input line: the same field, no new line break, and a blank line only for a blank line. */
  lemma RewriteKeepsFraming(codec: Codec, line: string, model: string)
    requires Faithful(codec) && '\n' !in line && '\r' !in line && RewriteBody(codec, line, model).Some?
    ensures var body := RewriteBody(codec, line, model).value;
            && Rewrite(codec, line, model) == Some(body + "\n") && '\n' !in body && '\r' !in body
            && (IsData(body) <==> IsData(line)) && (body == [] <==> line == [])
            && (!IsData(line) ==> body == line)
  {
    assert !HasBreak("data: [DONE]");
    if Payload(codec, line).Some? {
      RewrittenObject(codec, line, model);
    }
  }

  /** An object keeps all its fields and their order; `model` is set, in place if present and otherwise last. */
  lemma RewriteChangesModelOnly(codec: Codec, line: string, model: string, key: string)
    requires Faithful(codec) && RewriteBody(codec, line, model).Some?
    ensures var body := RewriteBody(codec, line, model).value;
            var before, after := Payload(codec, line), Payload(codec, body);
            && (before.Some? <==> after.Some?)
            && (before.None? && (!IsData(line) || Value(line) != DONE) ==> body == line)
            && (before.Some? ==>
                  && Lookup(after.value, key) == (if key == "model" then Some(Str(model)) else Lookup(before.value, key))
                  && Keys(after.value) == (if Lookup(before.value, "model").Some? then Keys(before.value)
                                           else Keys(before.value) + ["model"]))
  {
    var before := Payload(codec, line);
    if before.Some? {
      RewrittenObject(codec, line, model);
      SetFieldSetsOne(before.value, "model", Str(model), key);
    } else if IsData(line) && Value(line) == DONE {
      DoneValue();
    }
  }

  lemma RewriteIsIdempotent(codec: Codec, line: string, model: string)
    requires Faithful(codec) && RewriteBody(codec, line, model).Some?
    ensures RewriteBody(codec, RewriteBody(codec, line, model).value, model) == RewriteBody(codec, line, model)
  {
    var before := Payload(codec, line);
    if before.Some? {
      RewrittenObject(codec, line, model);
      SetFieldTwice(before.value, "model", Str(model));
    } else if IsData(line) && Value(line) == DONE {
      DoneValue();
    }
  }

  /* Token usage */

  datatype TokenSource = UpstreamReported | GatewayEstimated | Unknown

  datatype Usage = Usage(input: Option<int>, output: Option<int>, total: Option<int>, source: TokenSource)

  const NO_USAGE := Usage(None, None, None, Unknown)

  function Token(fields: seq<(string, Json)>, names: seq<string>): Option<int> {
    if names == [] then None
    else match Lookup(fields, names[0])
      case Some(Int(n)) => if n >= 0 then Some(n) else Token(fields, names[1..])
      case _ => Token(fields, names[1..])
  }

  function ExtractUsage(value: Option<Json>): Usage {
    match value
    case Some(Object(fields)) =>
      var input := Token(fields, ["prompt_tokens", "input_tokens"]);
      var output := Token(fields, ["completion_tokens", "output_tokens"]);
      var total := Token(fields, ["total_tokens"]);
      Usage(input, output, total, if input.Some? || output.Some? || total.Some? then UpstreamReported else Unknown)
    case _ => NO_USAGE
  }

  function ExtractSseUsage(codec: Codec, line: string): Option<Usage> {
    match Payload(codec, line)
    case None => None
    case Some(fields) =>
      var usage := ExtractUsage(Lookup(fields, "usage"));
      if usage.source.UpstreamReported? then Some(usage) else None
  }

  /** An integer that is not negative, under this name. */
  predicate Counts(fields: seq<(string, Json)>, name: string, n: int) {
    n >= 0 && Lookup(fields, name) == Some(Int(n))
  }

  predicate CountsNothing(fields: seq<(string, Json)>, name: string) {
    match Lookup(fields, name)
    case Some(Int(n)) => n < 0
    case _ => true
  }

  /** Which count is read: the current name first, and the older one only if that has no count. */
  lemma UsageCounts(fields: seq<(string, Json)>, n: int)
    ensures var u := ExtractUsage(Some(Object(fields)));
            && (u.input == Some(n) <==> Counts(fields, "prompt_tokens", n)
                                        || (CountsNothing(fields, "prompt_tokens") && Counts(fields, "input_tokens", n)))
            && (u.output == Some(n) <==> Counts(fields, "completion_tokens", n)
                                         || (CountsNothing(fields, "completion_tokens") && Counts(fields, "output_tokens", n)))
            && (u.total == Some(n) <==> Counts(fields, "total_tokens", n))
            && (u.source.UpstreamReported? <==> u.input.Some? || u.output.Some? || u.total.Some?)
    ensures forall value: Option<Json> :: value.None? || !value.value.Object? ==> ExtractUsage(value) == NO_USAGE
  {
    TwoNames(fields, "prompt_tokens", "input_tokens", n);
    TwoNames(fields, "completion_tokens", "output_tokens", n);
    OneName(fields, "total_tokens", n);
  }

  lemma OneName(fields: seq<(string, Json)>, name: string, n: int)
    ensures Token(fields, [name]) == Some(n) <==> Counts(fields, name, n)
  {
  }

  lemma TwoNames(fields: seq<(string, Json)>, first: string, second: string, n: int)
    ensures Token(fields, [first, second]) == Some(n) <==>
              Counts(fields, first, n) || (CountsNothing(fields, first) && Counts(fields, second, n))
  {
    assert [first, second][1..] == [second];
    OneName(fields, second, n);
  }

  /** A field that occurs once is found wherever it stands. */
  lemma {:induction false} LookupFinds(before: seq<(string, Json)>, key: string, value: Json, after: seq<(string, Json)>)
    requires key !in Keys(before)
    ensures Lookup(before + [(key, value)] + after, key) == Some(value)
  {
    var all := before + [(key, value)] + after;
    if before != [] {
      assert Keys(before)[0] == before[0].0;
      assert forall k :: k in Keys(before[1..]) ==> k in Keys(before) by {
        KeysOfCons(before[0], before[1..]);
        assert before == [before[0]] + before[1..];
      }
      LookupFinds(before[1..], key, value, after);
      assert all[1..] == before[1..] + [(key, value)] + after;
    }
  }

  lemma {:induction false} LookupMisses(fields: seq<(string, Json)>, key: string)
    ensures Lookup(fields, key).Some? <==> key in Keys(fields)
  {
    if fields != [] {
      assert fields == [fields[0]] + fields[1..];
      KeysOfCons(fields[0], fields[1..]);
      LookupMisses(fields[1..], key);
    }
  }

  predicate CountIsValid(count: Option<int>) {
    count.Some? ==> count.value >= 0
  }

  /** The usage recorder's acceptance rule. */
  predicate Recordable(u: Usage) {
    && CountIsValid(u.input) && CountIsValid(u.output) && CountIsValid(u.total)
    && (u.source.Unknown? <==> u.input.None? && u.output.None? && u.total.None?)
  }

  lemma {:induction false} TokenIsValid(fields: seq<(string, Json)>, names: seq<string>)
    ensures CountIsValid(Token(fields, names))
  {
    if names != [] {
      TokenIsValid(fields, names[1..]);
    }
  }

  lemma ExtractedIsRecordable(value: Option<Json>)
    ensures Recordable(ExtractUsage(value))
    ensures var u := ExtractUsage(value);
            && (u.input.Some? ==> u.input.value >= 0) && (u.output.Some? ==> u.output.value >= 0)
            && (u.total.Some? ==> u.total.value >= 0)
            && (u.source.Unknown? <==> u.input.None? && u.output.None? && u.total.None?)
  {
    if value.Some? && value.value.Object? {
      TokenIsValid(value.value.fields, ["prompt_tokens", "input_tokens"]);
      TokenIsValid(value.value.fields, ["completion_tokens", "output_tokens"]);
      TokenIsValid(value.value.fields, ["total_tokens"]);
    }
  }

  /** Rewriting a line does not change the usage read from it. */
  lemma RewriteKeepsUsage(codec: Codec, line: string, model: string)
    requires Faithful(codec) && RewriteBody(codec, line, model).Some?
    ensures ExtractSseUsage(codec, RewriteBody(codec, line, model).value) == ExtractSseUsage(codec, line)
  {
    RewriteChangesModelOnly(codec, line, model, "usage");
    assert "usage"[0] != "model"[0];
  }
}
