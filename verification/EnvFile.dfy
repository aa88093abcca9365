/** The self-host configuration file (scripts/selfhost/configure.py): the printer write_env and the parser read_env. */
module EnvFile {
  import opened Prelude
  import opened Text

  datatype Fault = NotAssignment | InvalidKey | ControlCharacter
  datatype Line = Blank | Pair(key: string, value: string) | Bad(fault: Fault)
  datatype Result = Ok(values: map<string, string>) | Malformed(fault: Fault, number: nat)

  /** In pieces short enough for the verifier to look into each of them. */
  const COMMENT := "# Local CloudOps" + " self-host confi" + "guration. Never " + "commit this file."
  const ORDERED: seq<string> := [
    "CLOUDOPS_DOMAIN", "CLOUDFLARE_TUNNEL_TOKEN", "APP_ENV", "POSTGRES_DB", "POSTGRES_USER", "AWS_REGION", "AI_PROVIDER",
    "NOTIFICATION_PROVIDER", "JIRA_ENABLED", "AWS_BEDROCK_ENABLED", "AWS_SES_ENABLED", "REMEDIATION_EXECUTION_ENABLED",
    "REMEDIATION_LIVE_AWS_ENABLED", "CLOUDOPS_INITIALIZED"]

  // ---- str.splitlines -----------------------------------------------------------------------------

  predicate IsBreak(c: char) {
    '\n' <= c <= '\r' || '\U{1c}' <= c <= '\U{1e}' || c == '\U{85}' || c == '\U{2028}' || c == '\U{2029}'
  }

  predicate OneLine(s: string) {
    forall i :: 0 <= i < |s| ==> !IsBreak(s[i])
  }

  /** Length of the first line. */
  function LineEnd(s: string): (n: nat)
    ensures n <= |s|
  {
    if s == "" || IsBreak(s[0]) then 0 else 1 + LineEnd(s[1..])
  }

  /** A carriage return and the line feed after it are one break. */
  function BreakWidth(s: string, n: nat): nat
    requires n < |s|
  {
    if s[n] == '\r' && n + 1 < |s| && s[n + 1] == '\n' then 2 else 1
  }

  function SplitLines(s: string): seq<string>
    decreases |s|
  {
    if s == "" then []
    else
      var n := LineEnd(s);
      if n == |s| then [s] else [s[..n]] + SplitLines(s[n + BreakWidth(s, n)..])
  }

  // ---- read_env -----------------------------------------------------------------------------------

  function FindEquals(s: string): (n: nat)
    ensures n <= |s|
  {
    if s == "" || s[0] == '=' then 0 else 1 + FindEquals(s[1..])
  }

  predicate IsUpper(c: char) { 'A' <= c <= 'Z' }

  predicate IsKeyChar(c: char) { IsUpper(c) || '0' <= c <= '9' || c == '_' }

  predicate IsKey(s: string) {
    s != "" && IsUpper(s[0]) && forall i :: 0 <= i < |s| ==> IsKeyChar(s[i])
  }

  /** Starting and ending with the same quote; a lone quote counts. */
  predicate Wrapped(s: string) {
    s != "" && s[0] in {'\'', '"'} && s[|s| - 1] == s[0]
  }

  function Unquote(s: string): string {
    if !Wrapped(s) then s else if |s| == 1 then "" else s[1..|s| - 1]
  }

  predicate HasControl(s: string) {
    '\0' in s || '\n' in s || '\r' in s
  }

  /** A stripped line. */
  function ParseStripped(line: string): Line {
    if line == "" || line[0] == '#' then Blank
    else
      var at := FindEquals(line);
      if at == |line| then Bad(NotAssignment)
      else ParsePair(Strip(line[..at]), Strip(line[at + 1..]))
  }

  function ParsePair(key: string, value: string): Line {
    if !IsKey(key) then Bad(InvalidKey)
    else if HasControl(Unquote(value)) then Bad(ControlCharacter)
    else Pair(key, Unquote(value))
  }

  function ParseLine(raw: string): Line {
    ParseStripped(Strip(raw))
  }

  function ParseAll(lines: seq<string>): seq<Line> {
    seq(|lines|, i requires 0 <= i < |lines| => ParseLine(lines[i]))
  }

  /** A malformed line ends the reading; a later assignment replaces an earlier one. */
  function Collect(parsed: seq<Line>): Result {
    if parsed == [] then Ok(map[])
    else
      match Collect(parsed[..|parsed| - 1])
      case Malformed(fault, number) => Malformed(fault, number)
      case Ok(values) =>
        match parsed[|parsed| - 1]
        case Blank => Ok(values)
        case Pair(key, value) => Ok(values[key := value])
        case Bad(fault) => Malformed(fault, |parsed|)
  }

  function Read(text: string): Result {
    Collect(ParseAll(SplitLines(text)))
  }

  method ReadLine(raw: string) returns (parsed: Line)
    ensures parsed == ParseLine(raw)
  {
    var line := Strip(raw);
    if line == "" || line[0] == '#' { return Blank; }
    var at := FindEquals(line);
    if at == |line| { return Bad(NotAssignment); }
    var key, value := Strip(line[..at]), Strip(line[at + 1..]);
    if !IsKey(key) { return Bad(InvalidKey); }
    if value != "" && value[0] in {'\'', '"'} && value[|value| - 1] == value[0] {
      value := if |value| == 1 then "" else value[1..|value| - 1];
    }
    if HasControl(value) { return Bad(ControlCharacter); }
    return Pair(key, value);
  }

  /** read_env: None is a missing file. */
  method ReadEnv(file: Option<string>) returns (result: Result)
    ensures result == if file.None? then Ok(map[]) else Read(file.value)
  {
    var values := map[];
    if file.None? { return Ok(values); }
    var lines := SplitLines(file.value);
    ghost var parsed := ParseAll(lines);
    var number := 0;
    while number < |lines|
      invariant 0 <= number <= |lines|
      invariant Collect(parsed[..number]) == Ok(values)
    {
      number := number + 1;
      assert parsed[..number][..number - 1] == parsed[..number - 1];
      var line := ReadLine(lines[number - 1]);
      match line {
        case Blank =>
        case Pair(key, value) => values := values[key := value];
        case Bad(fault) =>
          Stuck(parsed, number);
          return Malformed(fault, number);
      }
    }
    assert parsed[..|lines|] == parsed;
    return Ok(values);
  }

  lemma {:induction false} Stuck(parsed: seq<Line>, n: nat)
    requires n <= |parsed| && Collect(parsed[..n]).Malformed?
    ensures Collect(parsed) == Collect(parsed[..n])
  {
    if n < |parsed| {
      var init := parsed[..|parsed| - 1];
      assert init[..n] == parsed[..n];
      Stuck(init, n);
    } else {
      assert parsed[..n] == parsed;
    }
  }

  ghost predicate NoneBad(parsed: seq<Line>) {
    forall j :: 0 <= j < |parsed| ==> !parsed[j].Bad?
  }

  /** The line that gives a key its value: the last one that assigns it. */
  predicate Assigns(parsed: seq<Line>, i: nat, key: string, value: string) {
    i < |parsed| && parsed[i] == Pair(key, value)
    && forall j :: i < j < |parsed| && parsed[j].Pair? ==> parsed[j].key != key
  }

  /** Exactly the assigned keys, each with its last value. */
  ghost predicate LastAssigned(parsed: seq<Line>, values: map<string, string>) {
    && (forall j :: 0 <= j < |parsed| && parsed[j].Pair? ==> parsed[j].key in values)
    && (forall key :: key in values ==> exists i :: 0 <= i && Assigns(parsed, i, key, values[key]))
  }

  /** Reading fails at the first malformed line, and otherwise gives each key its last assignment. */
  lemma {:induction false} CollectMeaning(parsed: seq<Line>)
    ensures match Collect(parsed)
            case Malformed(fault, number) =>
              0 < number <= |parsed| && parsed[number - 1] == Bad(fault) && NoneBad(parsed[..number - 1])
            case Ok(values) => NoneBad(parsed) && LastAssigned(parsed, values)
  {
    if parsed != [] {
      var init, last := parsed[..|parsed| - 1], parsed[|parsed| - 1];
      CollectMeaning(init);
      if Collect(init).Malformed? {
        var n := Collect(init).number - 1;
        assert init[..n] == parsed[..n];
      } else if !last.Bad? {
        AssignedStep(parsed, Collect(init).values);
      }
    }
  }

  lemma AssignedStep(parsed: seq<Line>, before: map<string, string>)
    requires parsed != [] && LastAssigned(parsed[..|parsed| - 1], before) && !parsed[|parsed| - 1].Bad?
    ensures var last := parsed[|parsed| - 1];
            LastAssigned(parsed, if last.Pair? then before[last.key := last.value] else before)
  {
    var n := |parsed| - 1;
    var last := parsed[n];
    var values := if last.Pair? then before[last.key := last.value] else before;
    forall key | key in values ensures exists i :: 0 <= i && Assigns(parsed, i, key, values[key]) {
      if last.Pair? && last.key == key {
        assert Assigns(parsed, n, key, values[key]);
      } else {
        var i :| 0 <= i && Assigns(parsed[..n], i, key, before[key]);
        assert Assigns(parsed, i, key, values[key]);
      }
    }
  }

  // ---- What one line says -------------------------------------------------------------------------

  lemma {:induction false} EqualsAt(left: string, right: string)
    requires '=' !in left
    ensures FindEquals(left + "=" + right) == |left|
  {
    if left != "" {
      EqualsAt(left[1..], right);
      assert (left + "=" + right)[1..] == left[1..] + "=" + right;
    }
  }

  lemma {:induction false} NoEquals(line: string)
    requires '=' !in line
    ensures FindEquals(line) == |line|
  {
    if line != "" {
      NoEquals(line[1..]);
    }
  }

  /** A line that is empty or a comment once stripped is skipped; any other without an equals sign is malformed. */
  lemma LineWithoutEquals(raw: string)
    ensures ParseLine(raw) == Blank <==> Strip(raw) == "" || Strip(raw)[0] == '#'
    ensures '=' !in Strip(raw) && ParseLine(raw) != Blank ==> ParseLine(raw) == Bad(NotAssignment)
  {
    if '=' !in Strip(raw) {
      NoEquals(Strip(raw));
    }
  }

  /** Split at the first equals sign and stripped, the left side must be a key; the right side loses a pair of quotes. */
  lemma LineWithEquals(raw: string, left: string, right: string)
    requires Strip(raw) == left + "=" + right && '=' !in left && Strip(raw)[0] != '#'
    ensures ParseLine(raw) == if !IsKey(Strip(left)) then Bad(InvalidKey)
                              else if HasControl(Unquote(Strip(right))) then Bad(ControlCharacter)
                              else Pair(Strip(left), Unquote(Strip(right)))
  {
    var line := Strip(raw);
    EqualsAt(left, right);
    assert line[..|left|] == left && line[|left| + 1..] == right;
  }

  /** One pair of the same quote is taken off; a lone quote vanishes; nothing else changes. */
  lemma UnquoteMeaning(value: string, quote: char)
    requires quote in {'\'', '"'}
    ensures Unquote([quote] + value + [quote]) == value && Unquote([quote]) == ""
    ensures value == "" || value[0] !in {'\'', '"'} || value[|value| - 1] != value[0] ==> Unquote(value) == value
  {
    var wrapped := [quote] + value + [quote];
    assert wrapped[0] == quote && wrapped[|wrapped| - 1] == quote && wrapped[1..|wrapped| - 1] == value;
  }

  // ---- write_env ----------------------------------------------------------------------------------

  function Assignment(key: string, value: string): string {
    key + "=" + value
  }

  function WrittenLines(keys: seq<string>, values: map<string, string>): (lines: seq<string>)
    requires forall i :: 0 <= i < |keys| ==> keys[i] in values
    ensures |lines| == |keys| && forall i :: 0 <= i < |keys| ==> lines[i] == Assignment(keys[i], values[keys[i]])
  {
    seq(|keys|, i requires 0 <= i < |keys| => Assignment(keys[i], values[keys[i]]))
  }

  /** "\n".join */
  function Join(lines: seq<string>): string {
    if lines == [] then "" else if |lines| == 1 then lines[0] else lines[0] + "\n" + Join(lines[1..])
  }

  predicate Complete(keys: seq<string>, values: map<string, string>) {
    forall i :: 0 <= i < |keys| ==> keys[i] in values
  }

  function Write(keys: seq<string>, values: map<string, string>): string
    requires Complete(keys, values)
  {
    Join([COMMENT] + WrittenLines(keys, values) + [""])
  }

  /** write_env's text: the comment, one assignment a line, and a final line break. A missing key raises. */
  method WriteEnv(keys: seq<string>, values: map<string, string>) returns (text: Option<string>)
    ensures text == if Complete(keys, values) then Some(Write(keys, values)) else None
  {
    var lines := [COMMENT];
    for i := 0 to |keys|
      invariant Complete(keys[..i], values)
      invariant lines == [COMMENT] + WrittenLines(keys[..i], values)
    {
      if keys[i] !in values { return None; }
      assert keys[..i + 1] == keys[..i] + [keys[i]];
      lines := lines + [Assignment(keys[i], values[keys[i]])];
    }
    assert keys[..|keys|] == keys;
    lines := lines + [""];
    return Some(Join(lines));
  }

  // ---- Lines survive ------------------------------------------------------------------------------

  lemma {:induction false} LineEndIs(line: string, rest: string)
    requires OneLine(line)
    ensures LineEnd(line + "\n" + rest) == |line|
  {
    if line != "" {
      LineEndIs(line[1..], rest);
      assert (line + "\n" + rest)[1..] == line[1..] + "\n" + rest;
    }
  }

  lemma SplitFirst(line: string, rest: string)
    requires OneLine(line)
    ensures SplitLines(line + "\n" + rest) == [line] + SplitLines(rest)
  {
    var s := line + "\n" + rest;
    LineEndIs(line, rest);
    assert s[|line|] == '\n';
    assert BreakWidth(s, |line|) == 1;
    assert s[|line| + 1..] == rest;
    assert s[..|line|] == line;
  }

  lemma JoinFirst(lines: seq<string>)
    requires lines != []
    ensures Join(lines + [""]) == lines[0] + "\n" + Join(lines[1..] + [""])
  {
    assert (lines + [""])[1..] == lines[1..] + [""];
  }

  /** Single lines joined by line feeds, with a final one, are the lines read back. */
  lemma {:induction false} SplitJoin(lines: seq<string>)
    requires forall i :: 0 <= i < |lines| ==> OneLine(lines[i])
    ensures SplitLines(Join(lines + [""])) == lines
  {
    if lines == [] {
      assert [] + [""] == [""];
    } else {
      SplitJoin(lines[1..]);
      JoinFirst(lines);
      SplitFirst(lines[0], Join(lines[1..] + [""]));
      assert lines == [lines[0]] + lines[1..];
    }
  }

  lemma WrittenIsOneLine(keys: seq<string>, values: map<string, string>)
    requires forall i :: 0 <= i < |keys| ==> IsKey(keys[i]) && keys[i] in values && OneLine(values[keys[i]])
    ensures forall i :: 0 <= i < |keys| ==> OneLine(WrittenLines(keys, values)[i])
  {
    forall i | 0 <= i < |keys| ensures OneLine(Assignment(keys[i], values[keys[i]])) {
      var key := keys[i];
      assert forall j :: 0 <= j < |key| ==> IsKeyChar(key[j]);
    }
  }

  // ---- One line back ------------------------------------------------------------------------------

  /** A written assignment is read as the stripped, unquoted value, unless that holds a control character. */
  lemma ParseAssignment(key: string, value: string)
    requires IsKey(key)
    ensures ParseLine(Assignment(key, value)) == ParsePair(key, Strip(value))
  {
    var left, right := Pads(value);
    var r := Strip(value);
    var p := key + "=";
    assert IsKeyChar(key[0]);
    if r == "" {
      StripIs("", p, value);
      assert "" + p + value == Assignment(key, value);
      ParseWritten(key, "");
      assert p == Assignment(key, "");
      StripIs("", "", "");
    } else {
      var kept := left + r;
      StripIs("", p + kept, right);
      assert "" + (p + kept) + right == Assignment(key, value);
      ParseWritten(key, kept);
      StripIs(left, r, "");
      assert left + r + "" == kept;
    }
  }

  lemma ParseWritten(key: string, rest: string)
    requires IsKey(key)
    ensures ParseStripped(Assignment(key, rest)) == ParsePair(key, Strip(rest))
  {
    var line := Assignment(key, rest);
    assert IsKeyChar(key[0]) && IsKeyChar(key[|key| - 1]);
    assert line[0] == key[0];
    FindAfter(key, rest);
    assert line[..|key|] == key && line[|key| + 1..] == rest;
    StripIdentity(key);
  }

  lemma {:induction false} FindAfter(key: string, rest: string)
    requires forall i :: 0 <= i < |key| ==> IsKeyChar(key[i])
    ensures FindEquals(Assignment(key, rest)) == |key|
  {
    if key == "" {
    } else {
      assert IsKeyChar(key[0]);
      FindAfter(key[1..], rest);
      assert Assignment(key, rest)[1..] == Assignment(key[1..], rest);
    }
  }

  // ---- The round trip -----------------------------------------------------------------------------

  /** What a value becomes when it is written and read. */
  function Reread(value: string): string {
    Unquote(Strip(value))
  }

  /** Values that come back as they were written. */
  predicate Safe(value: string) {
    Stripped(value) && OneLine(value) && '\0' !in value && !Wrapped(value)
  }

  lemma RereadIff(value: string)
    ensures Reread(value) == value <==> Stripped(value) && !Wrapped(value)
  {
    var left, right := Pads(value);
    StripIdentity(value);
    assert |Reread(value)| <= |Strip(value)|;
  }

  lemma StripWithin(s: string)
    ensures forall c :: c in Strip(s) ==> c in s
  {
    var left, right := Pads(s);
  }

  lemma UnquoteWithin(s: string)
    ensures forall c :: c in Unquote(s) ==> c in s
  {}

  /** The written keys are distinct and well formed. */
  predicate KeyList(keys: seq<string>) {
    && (forall i :: 0 <= i < |keys| ==> IsKey(keys[i]))
    && (forall i, j :: 0 <= i < j < |keys| ==> keys[i] != keys[j])
  }

  ghost predicate NoBreaks(keys: seq<string>, values: map<string, string>)
    requires Complete(keys, values)
  {
    forall key :: key in keys ==> OneLine(values[key]) && '\0' !in values[key]
  }

  function Restricted(keys: seq<string>, values: map<string, string>): map<string, string> {
    map key | key in values && key in keys :: values[key]
  }

  function RereadAll(keys: seq<string>, values: map<string, string>): map<string, string> {
    map key | key in values && key in keys :: Reread(values[key])
  }

  lemma {:induction false} CollectWritten(keys: seq<string>, values: map<string, string>, parsed: seq<Line>)
    requires KeyList(keys) && Complete(keys, values) && |parsed| == |keys| + 1 && parsed[0] == Blank
    requires forall i :: 0 <= i < |keys| ==> parsed[i + 1] == Pair(keys[i], Reread(values[keys[i]]))
    ensures Collect(parsed) == Ok(RereadAll(keys, values))
  {
    var init := parsed[..|parsed| - 1];
    if keys == [] {
      assert Collect(init) == Ok(map[]);
    } else {
      var rest, key := keys[..|keys| - 1], keys[|keys| - 1];
      CollectWritten(rest, values, init);
      assert keys == rest + [key];
      RereadNext(rest, values, key);
    }
  }

  lemma RereadNext(keys: seq<string>, values: map<string, string>, key: string)
    requires key in values
    ensures RereadAll(keys + [key], values) == RereadAll(keys, values)[key := Reread(values[key])]
  {}

  lemma CommentIsBlank()
    ensures ParseLine(COMMENT).Blank? && OneLine(COMMENT)
  {
    HashIsBlank(COMMENT);
    var a, b, c, d := "# Local CloudOps", " self-host confi", "guration. Never ", "commit this file.";
    assert OneLine(a) && OneLine(b);
    assert OneLine(c) && OneLine(d);
    OneLineJoin(a, b);
    OneLineJoin(a + b, c);
    OneLineJoin(a + b + c, d);
  }

  lemma OneLineJoin(a: string, b: string)
    requires OneLine(a) && OneLine(b)
    ensures OneLine(a + b)
  {}

  lemma HashIsBlank(line: string)
    requires line != "" && line[0] == '#'
    ensures ParseLine(line).Blank?
  {
    var left, right := Pads(line);
    FirstOfThree(left, Strip(line), right);
  }

  lemma FirstOfThree(a: string, b: string, c: string)
    requires a + b + c != ""
    ensures var first := if a != "" then a else if b != "" then b else c; first != "" && first[0] == (a + b + c)[0]
  {}

  lemma WrittenLine(key: string, value: string)
    requires IsKey(key) && OneLine(value) && '\0' !in value
    ensures ParseLine(Assignment(key, value)) == Pair(key, Reread(value))
  {
    ParseAssignment(key, value);
    StripWithin(value);
    UnquoteWithin(Strip(value));
  }

  /** What comes back, for all values without line breaks or NUL. */
  lemma WriteThenRead(keys: seq<string>, values: map<string, string>)
    requires KeyList(keys) && Complete(keys, values) && NoBreaks(keys, values)
    ensures Read(Write(keys, values)) == Ok(RereadAll(keys, values))
  {
    var lines := [COMMENT] + WrittenLines(keys, values);
    CommentIsBlank();
    assert forall i :: 0 <= i < |keys| ==> keys[i] in keys;
    WrittenIsOneLine(keys, values);
    SplitJoin(lines);
    var parsed := ParseAll(lines);
    forall i | 0 <= i < |keys| ensures parsed[i + 1] == Pair(keys[i], Reread(values[keys[i]])) {
      WrittenLine(keys[i], values[keys[i]]);
    }
    CollectWritten(keys, values, parsed);
  }

  /** No value read from any file holds a line break or NUL. */
  lemma ReadIsClean(text: string)
    ensures Read(text).Ok? ==> forall key :: key in Read(text).values ==>
              OneLine(Read(text).values[key]) && '\0' !in Read(text).values[key]
  {
    var lines := SplitLines(text);
    var parsed := ParseAll(lines);
    LinesAreSingle(text);
    CollectMeaning(parsed);
    if Read(text).Ok? {
      var values := Read(text).values;
      forall key | key in values ensures OneLine(values[key]) && '\0' !in values[key] {
        var i :| 0 <= i && Assigns(parsed, i, key, values[key]);
        PairIsClean(lines[i]);
      }
    }
  }

  lemma PairIsClean(raw: string)
    requires OneLine(raw) && ParseLine(raw).Pair?
    ensures OneLine(ParseLine(raw).value) && '\0' !in ParseLine(raw).value
  {
    var line := Strip(raw);
    var rest := line[FindEquals(line) + 1..];
    StripWithin(raw);
    StripWithin(rest);
    UnquoteWithin(Strip(rest));
    assert forall c :: c in rest ==> c in line;
    Within(ParseLine(raw).value, raw);
  }

  lemma Within(value: string, raw: string)
    requires OneLine(raw) && forall c :: c in value ==> c in raw
    ensures OneLine(value)
  {
    forall i | 0 <= i < |value| ensures !IsBreak(value[i]) {
      assert value[i] in raw;
    }
  }

  lemma {:induction false} LineEndClean(s: string)
    ensures OneLine(s[..LineEnd(s)])
  {
    if s != "" && !IsBreak(s[0]) {
      LineEndClean(s[1..]);
      assert s[..LineEnd(s)] == [s[0]] + s[1..][..LineEnd(s) - 1];
    }
  }

  lemma {:induction false} LinesAreSingle(s: string)
    ensures forall i :: 0 <= i < |SplitLines(s)| ==> OneLine(SplitLines(s)[i])
    decreases |s|
  {
    if s != "" {
      var n := LineEnd(s);
      LineEndClean(s);
      if n == |s| {
        assert s[..n] == s;
      } else {
        LinesAreSingle(s[n + BreakWidth(s, n)..]);
      }
    }
  }

  /** Reading back a written file returns the written values exactly when every one of them is safe. */
  lemma RoundTripIff(keys: seq<string>, values: map<string, string>)
    requires KeyList(keys) && Complete(keys, values)
    ensures Read(Write(keys, values)) == Ok(Restricted(keys, values)) <==> forall key :: key in keys ==> Safe(values[key])
  {
    if NoBreaks(keys, values) {
      WriteThenRead(keys, values);
      RereadAllIff(keys, values);
    } else {
      ReadIsClean(Write(keys, values));
      var key :| key in keys && !(OneLine(values[key]) && '\0' !in values[key]);
      assert key in Restricted(keys, values) && Restricted(keys, values)[key] == values[key];
    }
  }

  lemma RereadAllIff(keys: seq<string>, values: map<string, string>)
    requires Complete(keys, values) && NoBreaks(keys, values)
    ensures RereadAll(keys, values) == Restricted(keys, values) <==> forall key :: key in keys ==> Safe(values[key])
  {
    var back, want := RereadAll(keys, values), Restricted(keys, values);
    forall key | key in keys ensures key in back && key in want && (back[key] == want[key] <==> Safe(values[key])) {
      RereadIff(values[key]);
    }
    if forall key :: key in keys ==> Safe(values[key]) {
      assert back == want;
    }
  }

  /** A value in quotes comes back without them. */
  lemma QuotesAreLost()
    ensures Read(Write(["KEY"], map["KEY" := "'x'"])) == Ok(map["KEY" := "x"])
  {
    var keys, values := ["KEY"], map["KEY" := "'x'"];
    assert KeyList(keys) && NoBreaks(keys, values);
    WriteThenRead(keys, values);
    StripIdentity("'x'");
    assert Reread("'x'") == "x";
    assert RereadAll(keys, values) == map["KEY" := "x"];
  }

  /** The file the installer writes, in particular. */
  lemma ConfigurationRoundTrips(values: map<string, string>)
    requires Complete(ORDERED, values)
    ensures Read(Write(ORDERED, values)) == Ok(Restricted(ORDERED, values))
            <==> forall key :: key in ORDERED ==> Safe(values[key])
  {
    OrderedKeys();
    RoundTripIff(ORDERED, values);
  }

  lemma OrderedKeys()
    ensures KeyList(ORDERED)
  {
    // Most keys differ in length already; the two pairs that do not differ in a letter.
    var lengths := [15, 23, 7, 11, 13, 10, 11, 21, 12, 19, 15, 29, 28, 20];
    assert forall i :: 0 <= i < |ORDERED| ==> |ORDERED[i]| == lengths[i];
    assert ORDERED[0][1] == 'L' && ORDERED[10][1] == 'W' && ORDERED[3][0] == 'P' && ORDERED[6][0] == 'A';
    ShortKeys();
    LongKeys();
    FlagKeys();
  }

  lemma ShortKeys()
    ensures IsKey(ORDERED[0]) && IsKey(ORDERED[2]) && IsKey(ORDERED[3]) && IsKey(ORDERED[4])
    ensures IsKey(ORDERED[5]) && IsKey(ORDERED[6]) && IsKey(ORDERED[8]) && IsKey(ORDERED[10])
  {}

  lemma LongKeys()
    ensures IsKey(ORDERED[1]) && IsKey(ORDERED[7]) && IsKey(ORDERED[13])
  {}

  lemma FlagKeys()
    ensures IsKey(ORDERED[9]) && IsKey(ORDERED[11]) && IsKey(ORDERED[12])
  {}
}
