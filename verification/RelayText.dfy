/** interactive/lava-session-supervisor: the lines a client sends, the marker lines that reach the
    pty, and the dispatcher's ack lines. */
module RelayText {
  import opened Text

  // ---- client requests ---------------------------------------------------------------

  /** What a call of emit() is for. */
  datatype Request =
    | Cmd(name: string)     // device_command(name)
    | Signal(body: string)  // a fire-and-forget marker
    | Plain(text: string)   // one of the supervisor's own lines

  datatype Parsed = Accepted(request: Request) | Refused(reply: string)

  predicate ValidToken(s: string) {
    s != "" && NoSpace(s) && '>' !in s
  }

  /** The part of _handle_client before the request is carried out. */
  function ParseRequest(line: string): (p: Parsed)
    requires line != ""
    ensures p.Accepted? ==> !p.request.Plain? && WellFormed(p.request)
  {
    var text := DropTrailing(line, '\n');
    var verb := BeforeFirst(text, ' ');
    var arg := if |verb| < |text| then text[|verb| + 1..] else "";
    if verb == "cmd" then
      var name := Strip(arg);
      if !ValidToken(name) then Refused("err invalid name\n")
      else NoSpaceNoNewline(name); Accepted(Cmd(name))
    else if verb == "signal" then
      if arg == "" || '>' in arg || '\n' in arg then Refused("err invalid signal\n")
      else Accepted(Signal(arg))
    else Refused("err unknown verb\n")
  }

  const MARKER := "<LAVA_SIGNAL_"

  /** The marker's text between "<LAVA_SIGNAL_" and ">". */
  function Body(r: Request): string
    requires !r.Plain?
  {
    if r.Cmd? then "DEVICECMD " + r.name else r.body
  }

  /** What emit() writes. */
  function Line(r: Request): string {
    if r.Plain? then r.text else MARKER + Body(r) + ">\n"
  }

  predicate OneLine(text: string) {
    text != "" && text[|text|-1] == '\n' && '\n' !in text[..|text|-1]
  }

  predicate WellFormed(r: Request) {
    match r
    case Cmd(name) => ValidToken(name) && '\n' !in name
    case Signal(body) => body != "" && '>' !in body && '\n' !in body
    case Plain(text) => OneLine(text) && !(MARKER <= text)
  }

  lemma BodyClean(r: Request)
    requires WellFormed(r) && !r.Plain?
    ensures Body(r) != "" && '>' !in Body(r) && '\n' !in Body(r)
  {}

  lemma LineIsOneLine(r: Request)
    requires WellFormed(r)
    ensures OneLine(Line(r))
  {
    if !r.Plain? {
      BodyClean(r);
      assert Line(r)[..|Line(r)|-1] == MARKER + Body(r) + ">";
    }
  }

  lemma DropNewline(text: string)
    requires '\n' !in text
    ensures DropTrailing(text + "\n", '\n') == text
  {
    assert (text + "\n")[..|text|] == text;
    assert DropTrailing(text, '\n') == text;
  }

  /** A client's line is a verb, a space and the rest. */
  lemma ParseLine(verb: string, arg: string)
    requires ' ' !in verb && '\n' !in verb && '\n' !in arg
    ensures DropTrailing(verb + " " + arg + "\n", '\n') == verb + " " + arg
    ensures BeforeFirst(verb + " " + arg, ' ') == verb && (verb + " " + arg)[|verb|+1..] == arg
  {
    DropNewline(verb + " " + arg);
    Concat(verb, " ", arg);
    BeforeFirstAt(verb, " " + arg, ' ');
  }

  /** A `cmd` is carried out under its stripped name exactly if that is a token. */
  lemma ParseCommand(arg: string)
    requires '\n' !in arg
    ensures ParseRequest("cmd " + arg + "\n") ==
            if ValidToken(Strip(arg)) then Accepted(Cmd(Strip(arg))) else Refused("err invalid name\n")
  {
    ParseLine("cmd", arg);
    assert "cmd" + " " + arg == "cmd " + arg;
  }

  /** A `signal` is carried out with exactly its body if that is not empty and has no '>'. */
  lemma ParseSignal(body: string)
    requires '\n' !in body
    ensures ParseRequest("signal " + body + "\n") ==
            if body != "" && '>' !in body then Accepted(Signal(body)) else Refused("err invalid signal\n")
  {
    ParseLine("signal", body);
    assert "signal" + " " + body == "signal " + body;
  }

  /** Any other verb is refused. */
  lemma ParseOther(verb: string, arg: string)
    requires ' ' !in verb && '\n' !in verb && '\n' !in arg && verb != "cmd" && verb != "signal"
    ensures ParseRequest(verb + " " + arg + "\n") == Refused("err unknown verb\n")
  {
    ParseLine(verb, arg);
  }

  /** The command-line client's request for a name without white space and '>' is carried out under
      that name. */
  lemma ClientCommandAccepted(name: string)
    requires name != "" && forall c :: c in name ==> !IsSpace(c) && c != '>'
    ensures ParseRequest("cmd " + name + "\n") == Accepted(Cmd(name))
  {
    NoSpaceNoNewline(name);
    ParseCommand(name);
    assert name[0] in name && name[|name|-1] in name;
    assert TrimLeft(name) == name && TrimRight(name) == name;
  }

  lemma BeforeFirstAt(a: string, b: string, c: char)
    requires c !in a && b != "" && b[0] == c
    ensures BeforeFirst(a + b, c) == a
  {
    if a == "" {
      assert a + b == b;
    } else {
      assert (a + b)[1..] == a[1..] + b;
      BeforeFirstAt(a[1..], b, c);
    }
  }

  // ---- the pty, line by line -------------------------------------------------------------

  /** Length of the first line, without its newline. */
  function LineLength(s: string): (n: nat)
    ensures n <= |s| && '\n' !in s[..n] && (n < |s| ==> s[n] == '\n')
  {
    if s == "" || s[0] == '\n' then 0 else 1 + LineLength(s[1..])
  }

  /** The body of a marker line, if it is one. */
  function MarkerOf(line: string): seq<string> {
    if |line| > |MARKER| + 1 && MARKER <= line && line[|line|-1] == '>' && '>' !in line[..|line|-1]
    then [line[|MARKER|..|line|-1]] else []
  }

  /** The marker bodies of the complete lines of the pty, in order. */
  function Markers(pty: string): seq<string>
    decreases |pty|
  {
    var n := LineLength(pty);
    if n == |pty| then [] else MarkerOf(pty[..n]) + Markers(pty[n+1..])
  }

  function Flat(requests: seq<Request>): string {
    if requests == [] then "" else Line(requests[0]) + Flat(requests[1..])
  }

  function Bodies(requests: seq<Request>): seq<string> {
    if requests == [] then []
    else (if requests[0].Plain? then [] else [Body(requests[0])]) + Bodies(requests[1..])
  }

  lemma {:induction false} LineLengthAt(a: string, b: string)
    requires '\n' !in a && (b == "" || b[0] == '\n')
    ensures LineLength(a + b) == |a|
  {
    if a == "" {
      assert a + b == b;
    } else {
      assert (a + b)[1..] == a[1..] + b;
      LineLengthAt(a[1..], b);
    }
  }

  /** One complete line at the front of the pty is read off. */
  lemma MarkersLine(line: string, rest: string)
    requires OneLine(line)
    ensures Markers(line + rest) == MarkerOf(line[..|line|-1]) + Markers(rest)
  {
    var a := line[..|line|-1];
    assert line == a + "\n";
    assert line + rest == a + ("\n" + rest);
    LineLengthAt(a, "\n" + rest);
    assert (line + rest)[..|a|] == a && (line + rest)[|a|+1..] == rest;
  }

  lemma MarkerOfLine(r: Request)
    requires WellFormed(r)
    ensures MarkerOf(Line(r)[..|Line(r)|-1]) == if r.Plain? then [] else [Body(r)]
  {
    var line := Line(r)[..|Line(r)|-1];
    if !r.Plain? {
      BodyClean(r);
      assert line == MARKER + Body(r) + ">";
      assert line[|MARKER|..|line|-1] == Body(r);
      assert line[..|line|-1] == MARKER + Body(r);
    }
  }

  /** Whole lines followed by an incomplete one: exactly the accepted bodies come back, in order. */
  lemma {:induction false} FramingRoundTrip(requests: seq<Request>, partial: string)
    requires forall i :: 0 <= i < |requests| ==> WellFormed(requests[i])
    requires '\n' !in partial
    ensures Markers(Flat(requests) + partial) == Bodies(requests)
  {
    if requests == [] {
      assert Flat(requests) + partial == partial == partial + "";
      LineLengthAt(partial, "");
    } else {
      var r := requests[0];
      LineIsOneLine(r);
      MarkerOfLine(r);
      Concat(Line(r), Flat(requests[1..]), partial);
      MarkersLine(Line(r), Flat(requests[1..]) + partial);
      FramingRoundTrip(requests[1..], partial);
    }
  }

  // ---- the pty, as the dispatcher reads it -----------------------------------------------

  /** The complete lines of the pty, without their newlines. */
  function Lines(pty: string): seq<string>
    decreases |pty|
  {
    var n := LineLength(pty);
    if n == |pty| then [] else [pty[..n]] + Lines(pty[n+1..])
  }

  /** The line that a request is to put on the pty. */
  function Shown(r: Request): string {
    match r
    case Cmd(name) => "<LAVA_SIGNAL_DEVICECMD " + name + ">"
    case Signal(body) => "<LAVA_SIGNAL_" + body + ">"
    case Plain(text) => if text == "" then "" else text[..|text|-1]
  }

  function ShownAll(requests: seq<Request>): (lines: seq<string>)
    ensures |lines| == |requests| && forall i :: 0 <= i < |requests| ==> lines[i] == Shown(requests[i])
  {
    seq(|requests|, i requires 0 <= i < |requests| => Shown(requests[i]))
  }

  const DEVICE := "<LAVA_SIGNAL_DEVICECMD "

  /** The device command that the dispatcher runs when it sees this line, if any. */
  function DeviceIn(line: string): Option<string> {
    if |line| > |DEVICE| && DEVICE <= line && line[|line|-1] == '>' && '>' !in line[..|line|-1]
    then Some(line[|DEVICE|..|line|-1]) else None
  }

  lemma LineShown(r: Request)
    requires WellFormed(r)
    ensures Line(r) == Shown(r) + "\n"
  {
    match r
    case Cmd(name) =>
      assert MARKER + "DEVICECMD " == "<LAVA_SIGNAL_DEVICECMD ";
      assert MARKER + ("DEVICECMD " + name) == (MARKER + "DEVICECMD ") + name;
      assert ">" + "\n" == ">\n";
    case Signal(body) => assert ">" + "\n" == ">\n";
    case Plain(text) => assert text == text[..|text|-1] + [text[|text|-1]];
  }

  lemma LinesLine(line: string, rest: string)
    requires '\n' !in line
    ensures Lines(line + "\n" + rest) == [line] + Lines(rest)
  {
    Concat(line, "\n", rest);
    LineLengthAt(line, "\n" + rest);
    assert (line + ("\n" + rest))[..|line|] == line && (line + ("\n" + rest))[|line|+1..] == rest;
  }

  lemma ShownClean(r: Request)
    requires WellFormed(r)
    ensures '\n' !in Shown(r)
  {
    LineIsOneLine(r);
    LineShown(r);
    assert Line(r)[..|Line(r)|-1] == Shown(r);
  }

  /** The lines of the pty are exactly those the emitted requests are to show, in order. */
  lemma {:induction false} LinesRoundTrip(requests: seq<Request>, partial: string)
    requires forall i :: 0 <= i < |requests| ==> WellFormed(requests[i])
    requires '\n' !in partial
    ensures Lines(Flat(requests) + partial) == ShownAll(requests)
  {
    if requests == [] {
      assert Flat(requests) + partial == partial == partial + "";
      LineLengthAt(partial, "");
    } else {
      var r := requests[0];
      LineShown(r);
      ShownClean(r);
      Concat(Line(r), Flat(requests[1..]), partial);
      LinesLine(Shown(r), Flat(requests[1..]) + partial);
      LinesRoundTrip(requests[1..], partial);
      assert ShownAll(requests) == [Shown(r)] + ShownAll(requests[1..]);
    }
  }

  /** The dispatcher reads off a request's line exactly the device command it asks for. */
  lemma DeviceShown(r: Request)
    requires WellFormed(r)
    ensures DeviceIn(Shown(r)) == DeviceName(r)
  {
    match r
    case Cmd(name) => DeviceInCmd(name);
    case Signal(body) => DeviceInSignal(body);
    case Plain(text) =>
      assert MARKER <= DEVICE;
      assert DEVICE <= Shown(r) ==> MARKER <= text;
  }

  lemma DeviceInCmd(name: string)
    requires '>' !in name
    ensures DeviceIn(DEVICE + name + ">") == Some(name)
  {
    var line := DEVICE + name + ">";
    assert line[..|line|-1] == DEVICE + name;
    assert line[|DEVICE|..|line|-1] == name;
  }

  lemma PrefixInside(body: string)
    requires DEVICE <= "<LAVA_SIGNAL_" + body + ">" && |body| >= 10
    ensures "DEVICECMD " <= body
  {
    var line := "<LAVA_SIGNAL_" + body + ">";
    assert line[..23] == DEVICE;
    assert body[..10] == line[13..23] == DEVICE[13..];
    assert DEVICE[13..] == "DEVICECMD ";
  }

  lemma DeviceInSignal(body: string)
    requires '>' !in body
    ensures DeviceIn("<LAVA_SIGNAL_" + body + ">") == if "DEVICECMD " <= body then Some(body[10..]) else None
  {
    var line := "<LAVA_SIGNAL_" + body + ">";
    assert "<LAVA_SIGNAL_" + "DEVICECMD " == DEVICE;
    if |line| > |DEVICE| && DEVICE <= line {
      PrefixInside(body);
    }
    if "DEVICECMD " <= body {
      assert body == "DEVICECMD " + body[10..];
      assert line == DEVICE + body[10..] + ">";
      DeviceInCmd(body[10..]);
    } else {
      assert !(DEVICE <= line) || |line| <= |DEVICE|;
    }
  }

  lemma {:induction false} FlatAppend(requests: seq<Request>, r: Request)
    ensures Flat(requests + [r]) == Flat(requests) + Line(r)
  {
    if requests == [] {
      assert requests + [r] == [r];
      assert Flat([r]) == Line(r) + Flat([r][1..]);
    } else {
      assert (requests + [r])[0] == requests[0] && (requests + [r])[1..] == requests[1..] + [r];
      FlatAppend(requests[1..], r);
      Concat(Line(requests[0]), Flat(requests[1..]), Line(r));
    }
  }

  // ---- the dispatcher's acks -----------------------------------------------------------------

  const ACK := "<LAVA_DEVICECMD_ACK "

  /** The device command a marker asks the dispatcher for, if any. */
  function DeviceName(r: Request): Option<string> {
    match r
    case Cmd(name) => Some(name)
    case Signal(body) => if "DEVICECMD " <= body then Some(body[10..]) else None
    case Plain(_) => None
  }

  function AckText(name: string, rc: nat): string {
    ACK + name + " " + Decimal(rc) + ">\n"
  }

  datatype Ack = Ack(name: string, rc: nat)

  /** White space of a bytes pattern's \S. */
  predicate IsAsciiSpace(c: char) {
    '\t' <= c <= '\r' || c == ' '
  }

  function AsciiWordLength(s: string): (n: nat)
    ensures n <= |s|
  {
    if s == "" || IsAsciiSpace(s[0]) then 0 else 1 + AsciiWordLength(s[1..])
  }

  function DigitsLength(s: string): (n: nat)
    ensures n <= |s| && forall i :: 0 <= i < n ==> IsDigit(s[i])
  {
    if s == "" || !IsDigit(s[0]) then 0 else 1 + DigitsLength(s[1..])
  }

  /** `(\d+)>` at the start of `s`. */
  function RcAt(s: string): Option<nat> {
    var d := DigitsLength(s);
    if 0 < d < |s| && s[d] == '>' then Some(NatOf(s[..d])) else None
  }

  /** `(\S+) (\d+)>` at the start of `s`: both runs are maximal, since the characters that end
      them are not in them. */
  function AckAt(s: string): Option<Ack> {
    var n := AsciiWordLength(s);
    if 0 < n < |s| && s[n] == ' ' then
      match RcAt(s[n+1..])
      case Some(rc) => Some(Ack(s[..n], rc))
      case None => None
    else None
  }

  /** _ACK_RE.search(line) */
  function DecodeAck(line: string): Option<Ack> {
    if line == "" then None
    else if ACK <= line && AckAt(line[|ACK|..]).Some? then AckAt(line[|ACK|..])
    else DecodeAck(line[1..])
  }

  lemma {:induction false} AsciiWordAt(word: string, rest: string)
    requires NoSpace(word) && rest != "" && IsAsciiSpace(rest[0])
    ensures AsciiWordLength(word + rest) == |word|
  {
    if word == "" {
      assert word + rest == rest;
    } else {
      assert (word + rest)[1..] == word[1..] + rest;
      assert !IsSpace(word[0]);
      AsciiWordAt(word[1..], rest);
    }
  }

  lemma {:induction false} DigitsAt(digits: string, rest: string)
    requires forall i :: 0 <= i < |digits| ==> IsDigit(digits[i])
    requires rest != "" && !IsDigit(rest[0])
    ensures DigitsLength(digits + rest) == |digits|
  {
    if digits == "" {
      assert digits + rest == rest;
    } else {
      assert (digits + rest)[1..] == digits[1..] + rest;
      DigitsAt(digits[1..], rest);
    }
  }

  lemma RcAtDecimal(rc: nat)
    ensures RcAt(Decimal(rc) + ">\n") == Some(rc)
  {
    DigitsAt(Decimal(rc), ">\n");
    DecimalRoundTrip(rc);
    assert (Decimal(rc) + ">\n")[..|Decimal(rc)|] == Decimal(rc);
  }

  lemma AckAtName(name: string, rc: nat)
    requires ValidToken(name)
    ensures AckAt(name + (" " + (Decimal(rc) + ">\n"))) == Some(Ack(name, rc))
  {
    var tail := Decimal(rc) + ">\n";
    var s := name + (" " + tail);
    AsciiWordAt(name, " " + tail);
    assert s[..|name|] == name && s[|name|+1..] == tail;
    RcAtDecimal(rc);
  }

  lemma DecodeAckText(name: string, rc: nat)
    requires ValidToken(name)
    ensures DecodeAck(AckText(name, rc)) == Some(Ack(name, rc))
  {
    var s := name + (" " + (Decimal(rc) + ">\n"));
    AckAtName(name, rc);
    assert AckText(name, rc) == ACK + s;
    PrefixDecodes(s);
  }

  lemma PrefixDecodes(s: string)
    requires AckAt(s).Some?
    ensures DecodeAck(ACK + s) == AckAt(s)
  {
    assert (ACK + s)[|ACK|..] == s;
  }

  /** The ack of a valid command name decodes to that name and that return code. */
  lemma AckRoundTrip(name: string, rc: nat)
    requires ValidToken(name)
    ensures AckText(name, rc) == "<LAVA_DEVICECMD_ACK " + name + " " + Decimal(rc) + ">\n"
    ensures DecodeAck("<LAVA_DEVICECMD_ACK " + name + " " + Decimal(rc) + ">\n") == Some(Ack(name, rc))
    ensures DecodeAck(AckText(name, rc)) == Some(Ack(name, rc))
  {
    DecodeAckText(name, rc);
  }
}
