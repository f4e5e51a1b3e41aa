/** The listener (listen): the state machine that classifies every incoming
    line as an echo to drop, the start or the end of a reply, a line of a
    reply body, the body prompt, or an unsolicited packet, and that records,
    for every outgoing command, the echo to expect and the command family
    whose replies to collect. */
module Engine {
  import opened Packets
  import opened GoStrings
  import opened Commands
  import opened Parser

  /** What one input makes the listener do. */
  datatype Event =
    | Quiet                      // the line is dropped or absorbed into the state
    | Rx(reply: Option<Packet>)  // a reply handed to the waiting requester; None is nil
    | Oob(packet: Packet)        // an unsolicited packet
    | Crash                      // parsePacket panicked and the listener dies
    | Wrote(bytes: string)       // a command written to the port

  /** The listener's inputs, in the order its loop receives them. */
  datatype Input = Incoming(line: string) | Outgoing(command: string)

  /** The listener's four variables: the echo to drop, the family prefix of
      the command in progress, and the header and body of the reply being
      gathered. */
  datatype ListenState = ListenState(echo: string, last: string, header: string, body: string)

  const Idle: ListenState := ListenState("", "", "", "")

  /** `last` is empty or a command-family prefix. */
  predicate Valid(s: ListenState) {
    s.last == "" || IsCommandPrefix(s.last)
  }

  /** The line belongs to the family of the command in progress. */
  predicate InFamily(c: Codec, s: ListenState, line: string) {
    s.last != "" && c.startsWith(line, s.last)
  }

  /** A parse result sent to the requester: the packet, nil, or the panic
      that ends the listener. */
  function Reply(p: Parsed): (e: Event)
    ensures e.Crash? <==> p.Panic?
    ensures !p.Panic? ==> e.Rx? && (e.reply.Some? <==> p.Got?)
    ensures p.Got? ==> e == Rx(Some(p.packet))
  {
    match p
    case Got(q) => Rx(Some(q))
    case Nil => Rx(None)
    case Panic => Crash
  }

  /** A line of the expected family: the record gathered so far, if any, is
      handed over parsed with an empty status, and the line starts a new
      record. */
  function Flush(c: Codec, s: ListenState, line: string): (ListenState, Event)
  {
    var e := if s.header != "" then Reply(ParsePacket(c, "", s.header, s.body)) else Quiet;
    if e.Crash? then (s, Crash) else (s.(header := line, body := ""), e)
  }

  /** OK or ERROR: the reply gathered so far is handed over parsed with that
      status, and cleared. */
  function Close(c: Codec, s: ListenState, line: string): (ListenState, Event)
  {
    var e := Reply(ParsePacket(c, line, s.header, s.body));
    if e.Crash? then (s, Crash) else (s.(header := "", body := ""), e)
  }

  /** A line outside any reply: an unsolicited packet, unless it parses to
      nil. */
  function Unsolicited(c: Codec, s: ListenState, line: string): (ListenState, Event)
  {
    match ParsePacket(c, "OK", line, "")
    case Got(p) => (s, Oob(p))
    case Nil => (s, Quiet)
    case Panic => (s, Crash)
  }

  /** One incoming line. After a crash the state is left as it was: the
      listener does not run again. */
  function Step(c: Codec, s: ListenState, line: string): (r: (ListenState, Event))
    ensures r.0.echo == s.echo && r.0.last == s.last
    ensures r.1 == Quiet || r.1.Rx? || r.1.Oob? || r.1 == Crash
    ensures r.1 == Crash ==> r.0 == s
  {
    if line == s.echo then (s, Quiet)
    else if InFamily(c, s, line) then Flush(c, s, line)
    else if line == "OK" || line == "ERROR" then Close(c, s, line)
    else if s.header != "" then (s.(body := s.body + line), Quiet)
    else if line == BODY_PROMPT then (s, Rx(Some(BodyPrompt)))
    else Unsolicited(c, s, line)
  }

  /** One outgoing command: the family it names, if any, becomes the one
      whose replies are collected, and the command without its terminator
      becomes the echo to drop. */
  function Transmit(s: ListenState, command: string): (r: ListenState)
    ensures r.header == s.header && r.body == s.body
    ensures r.last == s.last || IsCommandPrefix(r.last)
    ensures Valid(s) ==> Valid(r)
  {
    var family := QuestionPrefix(command);
    s.(last := if family.Some? then family.value else s.last, echo := TrimLineEnd(command))
  }

  /** One input of either kind. */
  function Do(c: Codec, s: ListenState, input: Input): (ListenState, Event)
  {
    match input
    case Incoming(line) => Step(c, s, line)
    case Outgoing(command) => (Transmit(s, command), Wrote(command))
  }

  /** The listener loop over a finite run of inputs; it stops at a crash. */
  function Run(c: Codec, s: ListenState, inputs: seq<Input>): (r: (ListenState, seq<Event>))
    decreases |inputs|
    ensures |r.1| <= |inputs|
    ensures Valid(s) ==> Valid(r.0)
  {
    if inputs == [] then (s, [])
    else
      var first := Do(c, s, inputs[0]);
      if first.1.Crash? then (first.0, [Crash])
      else
        var rest := Run(c, first.0, inputs[1..]);
        (rest.0, [first.1] + rest.1)
  }

  /** The listener as the object whose variables its loop updates. */
  class Listener {
    const codec: Codec
    var echo: string
    var last: string
    var header: string
    var body: string

    function State(): ListenState
      reads this
    {
      ListenState(echo, last, header, body)
    }

    constructor(c: Codec)
      ensures codec == c && State() == Idle
    {
      codec := c;
      echo, last, header, body := "", "", "", "";
    }

    /** The `case line := <-in` arm of the loop. */
    method OnLine(line: string) returns (ev: Event)
      modifies this
      ensures (State(), ev) == Step(codec, old(State()), line)
    {
      if line == echo {
        ev := Quiet;
      } else if last != "" && codec.startsWith(line, last) {
        ev := StartRecord(line);
      } else if line == "OK" || line == "ERROR" {
        ev := CloseReply(line);
      } else if header != "" {
        body := body + line;
        ev := Quiet;
      } else if line == BODY_PROMPT {
        ev := Rx(Some(BodyPrompt));
      } else {
        ev := OnUnsolicited(line);
      }
    }

    /** A line of the expected family: hand over the record gathered so far
        and start a new one. */
    method StartRecord(line: string) returns (ev: Event)
      modifies this
      ensures (State(), ev) == Flush(codec, old(State()), line)
    {
      ev := Quiet;
      if header != "" {
        var p := ParsePacket(codec, "", header, body);
        ev := Reply(p);
        if p.Panic? {
          return;
        }
      }
      header, body := line, "";
    }

    /** OK or ERROR: hand over the reply and clear it. */
    method CloseReply(line: string) returns (ev: Event)
      modifies this
      ensures (State(), ev) == Close(codec, old(State()), line)
    {
      ev := Reply(ParsePacket(codec, line, header, body));
      if ev.Crash? {
        return;
      }
      header := "";
      body := "";
    }

    /** A line outside any reply: an unsolicited packet unless it parses to
        nil. */
    method OnUnsolicited(line: string) returns (ev: Event)
      modifies this
      ensures (State(), ev) == Unsolicited(codec, old(State()), line)
    {
      var p := ParsePacket(codec, "OK", line, "");
      match p {
        case Got(q) => ev := Oob(q);
        case Nil => ev := Quiet;
        case Panic => ev := Crash;
      }
    }

    /** The `case line := <-self.tx` arm of the loop. */
    method OnTx(command: string) returns (ev: Event)
      modifies this
      ensures State() == Transmit(old(State()), command) && ev == Wrote(command)
    {
      var m := QuestionPrefix(command);
      if m.Some? {
        last := m.value;
      }
      echo := TrimLineEnd(command);
      ev := Wrote(command);
    }

    /** One turn of the loop: whichever channel delivered. */
    method Handle(input: Input) returns (ev: Event)
      modifies this
      ensures (State(), ev) == Do(codec, old(State()), input)
    {
      match input {
        case Incoming(line) => ev := OnLine(line);
        case Outgoing(command) => ev := OnTx(command);
      }
    }

    /** The loop itself, over a finite run of inputs; a crash ends it. */
    method Listen(inputs: seq<Input>) returns (events: seq<Event>)
      modifies this
      ensures (State(), events) == Run(codec, old(State()), inputs)
    {
      ghost var total := Run(codec, State(), inputs);
      events := [];
      var i := 0;
      assert inputs[i..] == inputs;
      assert events + total.1 == total.1;
      while i < |inputs|
        invariant 0 <= i <= |inputs|
        invariant total.0 == Run(codec, State(), inputs[i..]).0
        invariant total.1 == events + Run(codec, State(), inputs[i..]).1
        decreases |inputs| - i
      {
        ghost var before := State();
        ghost var rest := inputs[i..];
        var ev := Handle(inputs[i]);
        RunFirst(codec, before, rest);
        assert rest[1..] == inputs[i + 1..];
        events := events + [ev];
        if ev.Crash? {
          assert Run(codec, before, rest) == (State(), [Crash]);
          return;
        }
        i := i + 1;
      }
      assert events + [] == events;
    }
  }

  /** Run unfolded at its first input. */
  lemma RunFirst(c: Codec, s: ListenState, inputs: seq<Input>)
    requires inputs != []
    ensures var first := Do(c, s, inputs[0]);
            var rest := Run(c, first.0, inputs[1..]);
            Run(c, s, inputs) == if first.1.Crash? then (first.0, [Crash]) else (rest.0, [first.1] + rest.1)
  {
  }

  /** The echo of the last command is dropped and changes nothing. */
  lemma StepEcho(c: Codec, s: ListenState, line: string)
    requires line == s.echo
    ensures Step(c, s, line) == (s, Quiet)
  {
  }

  /** OK or ERROR (not the echo, not of the family) closes the reply: exactly
      one packet, parsed with that status from the header and body gathered
      so far, goes to the requester, and the header and body are cleared. */
  lemma StepStatus(c: Codec, s: ListenState, line: string)
    requires line == "OK" || line == "ERROR"
    requires line != s.echo && !InFamily(c, s, line)
    ensures var (t, e) := Step(c, s, line);
            && e == Reply(ParsePacket(c, line, s.header, s.body))
            && (e.Rx? || e.Crash?)
            && (e.Rx? ==> t == s.(header := "", body := ""))
  {
  }

  /** A line of the expected family starts a new record: the record gathered
      so far, if any, goes to the requester parsed with an empty status, and
      the line becomes the header of a record with an empty body. */
  lemma StepFlush(c: Codec, s: ListenState, line: string)
    requires line != s.echo && InFamily(c, s, line)
    ensures var (t, e) := Step(c, s, line);
            && (s.header == "" ==> e == Quiet)
            && (s.header != "" ==> e == Reply(ParsePacket(c, "", s.header, s.body)))
            && (!e.Crash? ==> t == s.(header := line, body := ""))
            && (e.Crash? ==> t == s)
  {
  }

  /** Any other line while a header is held is appended to the body, with
      no separator. */
  lemma StepBody(c: Codec, s: ListenState, line: string)
    requires line != s.echo && !InFamily(c, s, line) && line != "OK" && line != "ERROR"
    requires s.header != ""
    ensures Step(c, s, line) == (s.(body := s.body + line), Quiet)
  {
  }

  /** A line becomes an unsolicited packet exactly when no reply is being
      gathered, it is neither the echo, nor of the family, nor a status
      word, nor the prompt, and it parses to a packet; it is that packet. */
  lemma StepOob(c: Codec, s: ListenState, line: string)
    ensures Step(c, s, line).1.Oob? <==>
            && line != s.echo && !InFamily(c, s, line) && line != "OK" && line != "ERROR"
            && s.header == "" && line != BODY_PROMPT
            && ParsePacket(c, "OK", line, "").Got?
    ensures Step(c, s, line).1.Oob? ==> Step(c, s, line).1.packet == ParsePacket(c, "OK", line, "").packet
  {
  }

  /** Nil never reaches the out-of-band channel: a +ZUSIMR line outside a
      reply is dropped. */
  lemma StepZusimrDropped(c: Codec, s: ListenState, line: string)
    requires HasPrefix(line, "+ZUSIMR:")
    ensures !Step(c, s, line).1.Oob?
    ensures line != s.echo && !InFamily(c, s, line) && s.header == "" ==> Step(c, s, line) == (s, Quiet)
  {
    assert ParsePacket(c, "OK", line, "") == Nil by {
      ParseNilOnlyZusimr(c, "OK", line, "");
    }
    assert |line| >= 8;
    StepOob(c, s, line);
  }

  /** The requester is handed the body prompt exactly for the prompt line
      arriving outside a reply. */
  lemma StepPrompt(c: Codec, s: ListenState, line: string)
    ensures Step(c, s, line).1 == Rx(Some(BodyPrompt)) <==>
            line == BODY_PROMPT && line != s.echo && !InFamily(c, s, line) && s.header == ""
  {
    if line == s.echo {
      StepEcho(c, s, line);
    } else if InFamily(c, s, line) {
      StepFlush(c, s, line);
      ParseNeverPrompt(c, "", s.header, s.body);
    } else if line == "OK" || line == "ERROR" {
      StepStatus(c, s, line);
      ParseNeverPrompt(c, line, s.header, s.body);
    } else if s.header != "" {
      StepBody(c, s, line);
    } else if line != BODY_PROMPT {
      StepUnsolicited(c, s, line);
    }
  }

  /** A line outside a reply that is none of the above leaves the state as
      it is and is an unsolicited packet, nothing, or the crash. */
  lemma StepUnsolicited(c: Codec, s: ListenState, line: string)
    requires line != s.echo && !InFamily(c, s, line) && line != "OK" && line != "ERROR"
    requires s.header == "" && line != BODY_PROMPT
    ensures Step(c, s, line).0 == s
    ensures var e := Step(c, s, line).1; e.Oob? || e == Quiet || e == Crash
  {
  }

  /** A command of a family makes that family the expected one and its line
      without terminator the echo; header and body are untouched. */
  lemma TransmitFamily(c: Codec, s: ListenState, p: string, tail: string, args: seq<Arg>)
    requires IsCommandPrefix(p)
    requires tail == [] || !IsUpper(tail[0])
    ensures var command := FormatCommand(c, p + tail, args);
            && Transmit(s, command) == s.(last := p, echo := TrimLineEnd(command))
            && Valid(Transmit(s, command))
  {
    FormatCommandPrefix(c, p, tail, args);
  }

  /** A command without '+' and without arguments (ATZ, ATE0) keeps the
      expected family and sets the echo to the bare command. */
  lemma TransmitPlain(c: Codec, s: ListenState, cmd: string)
    requires '+' !in cmd && '\r' !in cmd && '\n' !in cmd
    ensures Transmit(s, FormatCommand(c, cmd, [])) == s.(echo := "AT" + cmd)
  {
    var line := FormatCommand(c, cmd, []);
    assert line == "AT" + cmd + "\r\n";
    assert '+' !in line;
    forall i: nat
      ensures !MatchAt(line, i)
    {
      if i + 4 <= |line| {
        assert line[i..i + 3][2] == line[i + 2];
        assert line[i + 2] in line;
      }
    }
    assert cmd == [] || !IsLineEnd(cmd[|cmd| - 1]) by {
      if cmd != [] {
        assert cmd[|cmd| - 1] in cmd;
      }
    }
    EchoOfCommand(c, cmd);
  }

  /** One record of a multi-record reply (a +CMGL listing): its header line
      and its one body line. */
  datatype Record = Record(header: string, body: string)

  /** The incoming lines of a run of records. */
  function RecordInputs(recs: seq<Record>): seq<Input>
    decreases |recs|
  {
    if recs == [] then [] else [Incoming(recs[0].header), Incoming(recs[0].body)] + RecordInputs(recs[1..])
  }

  /** A record whose header is of the expected family and whose body is not,
      neither being the echo and the body not a status word. */
  predicate RecordFits(c: Codec, s: ListenState, r: Record) {
    && r.header != "" && r.header != s.echo && c.startsWith(r.header, s.last)
    && r.body != s.echo && !c.startsWith(r.body, s.last) && r.body != "OK" && r.body != "ERROR"
  }

  /** Records and a closing OK that the listener classifies as a reply of
      the family in progress. */
  predicate Recognized(c: Codec, s: ListenState, recs: seq<Record>) {
    && s.last != ""
    && "OK" != s.echo && !c.startsWith("OK", s.last)
    && forall i :: 0 <= i < |recs| ==> RecordFits(c, s, recs[i])
  }

  /** What the requester should receive for a held record (header, body)
      followed by recs and OK: every record parsed with an empty status, the
      last one with status OK. */
  function Listing(c: Codec, header: string, body: string, recs: seq<Record>): (r: seq<Parsed>)
    decreases |recs|
    ensures |r| == |recs| + 1
  {
    if recs == [] then [ParsePacket(c, "OK", header, body)]
    else [ParsePacket(c, "", header, body)] + Listing(c, recs[0].header, recs[0].body, recs[1..])
  }

  predicate NoPanic(ps: seq<Parsed>) {
    forall i :: 0 <= i < |ps| ==> !ps[i].Panic?
  }

  /** Parse results as sent on the reply channel: nil as None. */
  function AsReplies(ps: seq<Parsed>): (r: seq<Option<Packet>>)
    requires NoPanic(ps)
    ensures |r| == |ps|
    ensures forall i :: 0 <= i < |ps| ==> (r[i].Some? <==> ps[i].Got?)
    ensures forall i :: 0 <= i < |ps| ==> ps[i].Got? ==> r[i] == Some(ps[i].packet)
  {
    if ps == [] then []
    else [if ps[0].Got? then Some(ps[0].packet) else None] + AsReplies(ps[1..])
  }

  /** The replies handed to the requester, in order. */
  function Replies(events: seq<Event>): seq<Option<Packet>>
    decreases |events|
  {
    if events == [] then []
    else (if events[0].Rx? then [events[0].reply] else []) + Replies(events[1..])
  }

  lemma {:induction false} RepliesAppend(a: seq<Event>, b: seq<Event>)
    decreases |a|
    ensures Replies(a + b) == Replies(a) + Replies(b)
  {
    if a != [] {
      assert (a + b)[0] == a[0];
      assert (a + b)[1..] == a[1..] + b;
      RepliesAppend(a[1..], b);
    } else {
      assert a + b == b;
    }
  }

  /** Run over an input that does not crash, then the rest. */
  lemma RunOne(c: Codec, s: ListenState, i: Input, tail: seq<Input>, s1: ListenState, e: Event)
    requires Do(c, s, i) == (s1, e) && !e.Crash?
    ensures var rest := Run(c, s1, tail);
            Run(c, s, [i] + tail) == (rest.0, [e] + rest.1)
  {
    RunFirst(c, s, [i] + tail);
    assert ([i] + tail)[1..] == tail;
  }

  lemma ConsTwo<T>(a: T, b: T, t: seq<T>)
    ensures [a] + ([b] + t) == [a, b] + t
  {
  }

  /** One record: its header hands over the record held, if any, and its
      body line becomes the new record's body. */
  lemma RecordStep(c: Codec, s: ListenState, r: Record, tail: seq<Input>)
    requires RecordFits(c, s, r) && s.last != ""
    requires s.header != "" ==> !ParsePacket(c, "", s.header, s.body).Panic?
    ensures var held := if s.header != "" then Reply(ParsePacket(c, "", s.header, s.body)) else Quiet;
            var s2 := s.(header := r.header, body := r.body);
            var rest := Run(c, s2, tail);
            Run(c, s, [Incoming(r.header), Incoming(r.body)] + tail) == (rest.0, [held, Quiet] + rest.1)
  {
    var held := if s.header != "" then Reply(ParsePacket(c, "", s.header, s.body)) else Quiet;
    StepFlush(c, s, r.header);
    var s1 := s.(header := r.header, body := "");
    assert Do(c, s, Incoming(r.header)) == (s1, held);
    StepBody(c, s1, r.body);
    assert s1.body + r.body == r.body;
    var s2 := s.(header := r.header, body := r.body);
    assert Do(c, s1, Incoming(r.body)) == (s2, Quiet);
    var rest := Run(c, s2, tail);
    RunOne(c, s1, Incoming(r.body), tail, s2, Quiet);
    RunOne(c, s, Incoming(r.header), [Incoming(r.body)] + tail, s1, held);
    ConsTwo(Incoming(r.header), Incoming(r.body), tail);
    ConsTwo(held, Quiet, rest.1);
  }

  /** Recognition depends only on the echo and the family. */
  lemma RecognizedRest(c: Codec, s: ListenState, t: ListenState, recs: seq<Record>)
    requires recs != [] && Recognized(c, s, recs)
    requires t.echo == s.echo && t.last == s.last
    ensures Recognized(c, t, recs[1..])
  {
    forall i | 0 <= i < |recs[1..]|
      ensures RecordFits(c, t, recs[1..][i])
    {
      assert recs[1..][i] == recs[i + 1];
      assert RecordFits(c, s, recs[i + 1]);
    }
  }

  /** With a record held, the records that follow and the closing OK hand
      the requester one reply per record, in order, and leave no reply
      gathered. */
  lemma {:induction false} ListingFrom(c: Codec, s: ListenState, recs: seq<Record>)
    requires s.header != ""
    requires Recognized(c, s, recs)
    requires NoPanic(Listing(c, s.header, s.body, recs))
    decreases |recs|
    ensures var r := Run(c, s, RecordInputs(recs) + [Incoming("OK")]);
            && r.0 == s.(header := "", body := "")
            && Replies(r.1) == AsReplies(Listing(c, s.header, s.body, recs))
  {
    var inputs := RecordInputs(recs) + [Incoming("OK")];
    var L := Listing(c, s.header, s.body, recs);
    if recs == [] {
      assert inputs == [Incoming("OK")];
      StepStatus(c, s, "OK");
      assert !L[0].Panic?;
      RunFirst(c, s, inputs);
      assert Replies([Rx(AsReplies(L)[0])]) == [AsReplies(L)[0]];
    } else {
      var tail := RecordInputs(recs[1..]) + [Incoming("OK")];
      assert inputs == [Incoming(recs[0].header), Incoming(recs[0].body)] + tail;
      assert RecordFits(c, s, recs[0]);
      assert !L[0].Panic?;
      RecordStep(c, s, recs[0], tail);
      var s2 := s.(header := recs[0].header, body := recs[0].body);
      var M := Listing(c, s2.header, s2.body, recs[1..]);
      assert L == [L[0]] + M;
      assert NoPanic(M) by {
        forall i | 0 <= i < |M|
          ensures !M[i].Panic?
        {
          assert M[i] == L[i + 1];
        }
      }
      RecognizedRest(c, s, s2, recs);
      ListingFrom(c, s2, recs[1..]);
      var rest := Run(c, s2, tail);
      var e1 := Reply(L[0]);
      assert e1 == Rx(AsReplies(L)[0]);
      RepliesAppend([e1, Quiet], rest.1);
      assert Replies([e1, Quiet]) == [AsReplies(L)[0]];
      assert AsReplies(L) == [AsReplies(L)[0]] + AsReplies(M);
    }
  }

  /** From an idle reply state, a run of records and the closing OK hand
      the requester one reply per record, in order; the first record's
      header starts the reply without handing anything over. */
  lemma ListingFromIdle(c: Codec, s: ListenState, recs: seq<Record>)
    requires s.header == "" && recs != []
    requires Recognized(c, s, recs)
    requires NoPanic(Listing(c, recs[0].header, recs[0].body, recs[1..]))
    ensures var r := Run(c, s, RecordInputs(recs) + [Incoming("OK")]);
            && r.0 == s.(header := "", body := "")
            && Replies(r.1) == AsReplies(Listing(c, recs[0].header, recs[0].body, recs[1..]))
  {
    var inputs := RecordInputs(recs) + [Incoming("OK")];
    var tail := RecordInputs(recs[1..]) + [Incoming("OK")];
    assert inputs == [Incoming(recs[0].header), Incoming(recs[0].body)] + tail;
    assert RecordFits(c, s, recs[0]);
    RecordStep(c, s, recs[0], tail);
    var s2 := s.(header := recs[0].header, body := recs[0].body);
    RecognizedRest(c, s, s2, recs);
    ListingFrom(c, s2, recs[1..]);
    var rest := Run(c, s2, tail);
    RepliesAppend([Quiet, Quiet], rest.1);
    assert Replies([Quiet, Quiet]) == [];
  }

  /** A +CMGL record whose arguments have the kinds the parser asserts. */
  predicate ListedRecord(c: Codec, r: Record) {
    HasPrefix(r.header, "+CMGL:") && ListedArgs(c.unquotes(TrimSpace(r.header[6..])))
  }

  /** A parse result that is a message with the given body and last mark. */
  predicate MessageWith(p: Parsed, body: string, last: bool) {
    p.Got? && p.packet.MessagePacket? && p.packet.message.body == body && p.packet.message.last == last
  }

  /** A listed record parses to a message with its body, marked last exactly
      when parsed with a non-empty status. */
  lemma ListedReply(c: Codec, r: Record, status: string)
    requires ListedRecord(c, r)
    ensures MessageWith(ParsePacket(c, status, r.header, r.body), r.body, status != "")
  {
    var rest := r.header[6..];
    PrefixRest(r.header, "+CMGL:");
    ParseCmgl(c, status, rest, r.body);
  }

  /** Element i of a listing is record i parsed with an empty status, or
      with OK for the last one. */
  lemma {:induction false} ListingAt(c: Codec, first: Record, recs: seq<Record>, i: nat)
    requires i <= |recs|
    decreases |recs|
    ensures var all := [first] + recs;
            Listing(c, first.header, first.body, recs)[i] ==
              ParsePacket(c, if i == |recs| then "OK" else "", all[i].header, all[i].body)
  {
    if i > 0 {
      ListingAt(c, recs[0], recs[1..], i - 1);
      assert ([first] + recs)[i] == ([recs[0]] + recs[1..])[i - 1];
    }
  }

  /** The replies of a +CMGL listing are messages carrying the records'
      bodies, and only the one closed by OK is marked last. */
  lemma ListingMessages(c: Codec, first: Record, recs: seq<Record>)
    requires ListedRecord(c, first)
    requires forall i :: 0 <= i < |recs| ==> ListedRecord(c, recs[i])
    ensures var L := Listing(c, first.header, first.body, recs);
            forall i :: 0 <= i < |L| ==> MessageWith(L[i], ([first] + recs)[i].body, i == |recs|)
  {
    var L := Listing(c, first.header, first.body, recs);
    var all := [first] + recs;
    forall i | 0 <= i < |L|
      ensures MessageWith(L[i], all[i].body, i == |recs|)
    {
      ListingAt(c, first, recs, i);
      assert ListedRecord(c, all[i]) by {
        if i > 0 {
          assert all[i] == recs[i - 1];
        }
      }
      ListedReply(c, all[i], if i == |recs| then "OK" else "");
    }
  }

  /** No message parse panics. */
  lemma MessagesNoPanic(ps: seq<Parsed>, bodies: seq<string>, n: nat)
    requires |bodies| == |ps|
    requires forall i :: 0 <= i < |ps| ==> MessageWith(ps[i], bodies[i], i == n)
    ensures NoPanic(ps)
  {
  }

  /** A reply that is a message with the given body and last mark. */
  predicate ReplyWith(p: Option<Packet>, body: string, last: bool) {
    p.Some? && p.value.MessagePacket? && p.value.message.body == body && p.value.message.last == last
  }

  /** A +CMGL listing of n well-formed records closed by OK, arriving
      outside any reply, hands the requester exactly n messages, in order,
      each with its record's body, and only the last is marked last. */
  lemma ListingReplies(c: Codec, s: ListenState, recs: seq<Record>)
    requires s.header == "" && recs != []
    requires Recognized(c, s, recs)
    requires forall i :: 0 <= i < |recs| ==> ListedRecord(c, recs[i])
    ensures var out := Replies(Run(c, s, RecordInputs(recs) + [Incoming("OK")]).1);
            && |out| == |recs|
            && forall i :: 0 <= i < |recs| ==> ReplyWith(out[i], recs[i].body, i == |recs| - 1)
  {
    var first := recs[0];
    var rest := recs[1..];
    assert [first] + rest == recs;
    var L := Listing(c, first.header, first.body, rest);
    ListingMessages(c, first, rest);
    var bodies := seq(|recs|, i requires 0 <= i < |recs| => recs[i].body);
    MessagesNoPanic(L, bodies, |rest|);
    ListingFromIdle(c, s, recs);
    var out := AsReplies(L);
    forall i | 0 <= i < |recs|
      ensures ReplyWith(out[i], recs[i].body, i == |recs| - 1)
    {
      assert MessageWith(L[i], recs[i].body, i == |rest|);
    }
  }
}
