/** The command facade and the initializer: the methods a program calls on
    the modem. Each writes one command line and waits for the listener's
    answer. The listener's answers are a script: each entry is a packet
    (or nil) the listener delivered, or a silence in which the read timeout
    expired. */
module Facade {
  import opened Packets
  import opened Commands

  /** What one wait on the reply channel sees. */
  datatype Incoming = Delivered(reply: Option<Packet>) | Silence

  /** The script entry at k; past the end nothing more is delivered. */
  function At(script: seq<Incoming>, k: nat): Incoming
  {
    if k < |script| then script[k] else Silence
  }

  /** The errors the facade reports. Panic is a failed type assertion in
      init; Blocked is a raw read of the reply channel that would wait
      forever. */
  datatype Error =
    | TimedOut(command: string)
    | ErrorResponse
    | MessageNotFound
    | UnexpectedError
    | UnexpectedResponseType
    | ExpectedBodyPrompt
    | CouldNotReset
    | Panic
    | Blocked

  datatype Result<T> = Success(value: T) | Failure(error: Error)

  /** What a sequence of calls produced: its result, the script position
      after it, and the command lines it wrote. */
  datatype Trace<T> = Trace(result: T, next: nat, wrote: seq<string>)

  /** send: the answer to a command. An ERROR packet and a timeout are
      failures; anything else, nil included, is the reply. */
  function Answer(inc: Incoming, cmd: string): (r: Result<Option<Packet>>)
    ensures r.Failure? <==> inc == Silence || inc == Delivered(Some(ERROR))
    ensures r.Success? ==> inc == Delivered(r.value) && r.value != Some(ERROR)
    ensures inc == Silence ==> r.error == TimedOut(cmd)
    ensures inc == Delivered(Some(ERROR)) ==> r.error == ErrorResponse
  {
    match inc
    case Silence => Failure(TimedOut(cmd))
    case Delivered(p) => if p == Some(ERROR) then Failure(ErrorResponse) else Success(p)
  }

  /** A reply that is a stored message. */
  predicate IsMessage(p: Option<Packet>) {
    p.Some? && p.value.MessagePacket?
  }

  /** GetMessage, given the answer to its +CMGR command. */
  function GetMessageOf(a: Result<Option<Packet>>, n: int): (r: Result<Message>)
    ensures r.Success? ==> r.value.index == n && a.Success? && IsMessage(a.value)
    ensures r.Failure? ==> r.error == MessageNotFound || a == Failure(r.error)
  {
    if a.Failure? then Failure(a.error)
    else if IsMessage(a.value) then Success(a.value.value.message.(index := n))
    else Failure(MessageNotFound)
  }

  /** GetMessage returns the delivered message with its index replaced by
      the one asked for, fails with "Message not found" on any other
      delivered packet, and passes on a timeout or an ERROR reply. */
  lemma GetMessageOutcome(inc: Incoming, cmd: string, n: int)
    ensures var r := GetMessageOf(Answer(inc, cmd), n);
            && (r.Success? <==> inc.Delivered? && IsMessage(inc.reply))
            && (r.Success? ==> r.value.index == n && r.value == inc.reply.value.message.(index := n))
            && (inc.Delivered? && !IsMessage(inc.reply) && inc.reply != Some(ERROR) ==> r == Failure(MessageNotFound))
            && (inc == Silence ==> r == Failure(TimedOut(cmd)))
            && (inc == Delivered(Some(ERROR)) ==> r == Failure(ErrorResponse))
  {
  }

  /** SupportedStorageAreas, given the answer to its +CPMS query. */
  function StorageAreasOf(a: Result<Option<Packet>>): (r: Result<StorageAreas>)
    ensures r.Success? ==> a == Success(Some(StorageAreasPacket(r.value)))
    ensures r.Failure? ==> r.error == UnexpectedResponseType || a == Failure(r.error)
  {
    if a.Failure? then Failure(a.error)
    else if a.value.Some? && a.value.value.StorageAreasPacket? then Success(a.value.value.areas)
    else Failure(UnexpectedResponseType)
  }

  /** The query succeeds exactly on a delivered storage-areas packet, and
      returns its areas; any other delivered reply is an unexpected response
      type, and a timeout or an ERROR reply passes through. */
  lemma StorageAreasOutcome(inc: Incoming, cmd: string)
    ensures var r := StorageAreasOf(Answer(inc, cmd));
            && (r.Success? <==> inc.Delivered? && inc.reply.Some? && inc.reply.value.StorageAreasPacket?)
            && (r.Success? ==> r.value == inc.reply.value.areas)
            && ((inc.Delivered? && inc.reply != Some(ERROR) && !(inc.reply.Some? && inc.reply.value.StorageAreasPacket?))
                  ==> r == Failure(UnexpectedResponseType))
            && (inc == Silence ==> r == Failure(TimedOut(cmd)))
            && (inc == Delivered(Some(ERROR)) ==> r == Failure(ErrorResponse))
  {
  }

  /** The error of a call whose reply is discarded. */
  function ErrorOf<T>(r: Result<T>): Option<Error>
  {
    if r.Failure? then Some(r.error) else None
  }

  /** The next delivery at or after k, skipping silences (a raw read of the
      reply channel has no timeout), and the position after it; None when
      the script ends first. */
  function NextDelivery(script: seq<Incoming>, k: nat): (r: (Option<Option<Packet>>, nat))
    decreases |script| - k
    ensures r.1 >= k
    ensures r.0.Some? ==> k < r.1 <= |script| && Deliveries(script, k, r.1) == [r.0.value]
    ensures r.0.None? ==> r.1 == (if k < |script| then |script| else k)
    ensures r.0.None? && k <= |script| ==> Deliveries(script, k, |script|) == []
  {
    if k >= |script| then (None, k)
    else if script[k].Delivered? then (Some(script[k].reply), k + 1)
    else NextDelivery(script, k + 1)
  }

  /** The replies delivered in script[lo..hi], in order. */
  function Deliveries(script: seq<Incoming>, lo: nat, hi: nat): seq<Option<Packet>>
    requires lo <= hi <= |script|
    decreases hi - lo
  {
    if lo == hi then []
    else (if script[lo].Delivered? then [script[lo].reply] else []) + Deliveries(script, lo + 1, hi)
  }

  lemma {:induction false} DeliveriesSplit(script: seq<Incoming>, a: nat, b: nat, d: nat)
    requires a <= b <= d <= |script|
    decreases b - a
    ensures Deliveries(script, a, d) == Deliveries(script, a, b) + Deliveries(script, b, d)
  {
    if a < b {
      DeliveriesSplit(script, a + 1, b, d);
    }
  }

  /** The replies a list of messages arrives as. */
  function AsPackets(ms: seq<Message>): (r: seq<Option<Packet>>)
    ensures |r| == |ms|
    ensures forall i :: 0 <= i < |ms| ==> r[i] == Some(MessagePacket(ms[i]))
  {
    if ms == [] then [] else [Some(MessagePacket(ms[0]))] + AsPackets(ms[1..])
  }

  /** The loop of ListMessages from reply p at position k, with acc
      gathered: a message is appended and ends the list when marked last;
      anything else is an error. */
  function Collect(script: seq<Incoming>, k: nat, p: Option<Packet>, acc: seq<Message>): (r: (Result<seq<Message>>, nat))
    decreases |script| - k
    ensures r.1 >= k
    ensures r.0.Failure? ==> r.0.error == UnexpectedError || r.0.error == Blocked
    ensures r.0.Success? ==> |r.0.value| > |acc|
  {
    if !IsMessage(p) then (Failure(UnexpectedError), k)
    else
      var m := p.value.message;
      if m.last then (Success(acc + [m]), k)
      else
        var (next, j) := NextDelivery(script, k);
        if next.None? then (Failure(Blocked), j)
        else Collect(script, j, next.value, acc + [m])
  }

  /** ListMessages: a bare OK is the empty list; otherwise the replies are
      collected until the one marked last. */
  function ListSpec(c: Codec, script: seq<Incoming>, pos: nat, filter: string): (t: Trace<Result<seq<Message>>>)
    ensures |t.wrote| == 1 && t.next > pos
    ensures t.result.Success? && t.result.value != [] ==> t.result.value[|t.result.value| - 1].last
  {
    var cmd := FormatCommand(c, "+CMGL", [Str(filter)]);
    var a := Answer(At(script, pos), cmd);
    if a.Failure? then Trace(Failure(a.error), pos + 1, [cmd])
    else if a.value == Some(OK) then Trace(Success([]), pos + 1, [cmd])
    else
      var (r, e) := Collect(script, pos + 1, a.value, []);
      CollectSuccess(script, pos + 1, a.value, []);
      Trace(r, e, [cmd])
  }

  /** A list whose first |acc| + 1 messages are acc and then m, split at
      m. */
  lemma CollectedAt(acc: seq<Message>, m: Message, res: seq<Message>)
    requires |res| > |acc| && res[..|acc| + 1] == acc + [m]
    ensures res[..|acc|] == acc && res[|acc|] == m
    ensures AsPackets(res[|acc|..]) == [Some(MessagePacket(m))] + AsPackets(res[|acc| + 1..])
  {
    assert res[..|acc|] == res[..|acc| + 1][..|acc|];
    assert res[|acc|] == res[..|acc| + 1][|acc|] == (acc + [m])[|acc|];
    assert res[|acc|..] == [m] + res[|acc| + 1..];
  }

  /** res extends acc with messages that are exactly the replies [p] and
      those delivered in script[k..e], in order; the last of them, and only
      it, is marked last. */
  predicate Collected(script: seq<Incoming>, k: nat, e: nat, p: Option<Packet>, acc: seq<Message>, res: seq<Message>) {
    && k <= e <= |script|
    && |res| > |acc| && res[..|acc|] == acc
    && [p] + Deliveries(script, k, e) == AsPackets(res[|acc|..])
    && res[|res| - 1].last
    && forall i :: |acc| <= i < |res| - 1 ==> !res[i].last
  }

  /** A message not marked last, followed by a collection from the next
      delivery, is a collection from the message. */
  lemma CollectedStep(script: seq<Incoming>, k: nat, j: nat, e: nat, p: Option<Packet>, next: Option<Packet>,
                      acc: seq<Message>, res: seq<Message>)
    requires IsMessage(p) && !p.value.message.last
    requires k < j <= |script| && Deliveries(script, k, j) == [next]
    requires Collected(script, j, e, next, acc + [p.value.message], res)
    ensures Collected(script, k, e, p, acc, res)
  {
    var m := p.value.message;
    CollectedAt(acc, m, res);
    DeliveriesSplit(script, k, j, e);
    assert [p] + Deliveries(script, k, e) == [p] + ([next] + Deliveries(script, j, e));
  }

  /** A successful collection holds exactly the replies received, in order,
      all messages; the last of them, and only it, is marked last. */
  lemma {:induction false} CollectSuccess(script: seq<Incoming>, k: nat, p: Option<Packet>, acc: seq<Message>)
    requires k <= |script|
    decreases |script| - k
    ensures var (r, e) := Collect(script, k, p, acc);
            r.Success? ==> Collected(script, k, e, p, acc, r.value)
  {
    if IsMessage(p) && !p.value.message.last {
      var m := p.value.message;
      var (next, j) := NextDelivery(script, k);
      if next.Some? {
        CollectSuccess(script, j, next.value, acc + [m]);
        var (r, e) := Collect(script, j, next.value, acc + [m]);
        if r.Success? {
          CollectedStep(script, k, j, e, p, next.value, acc, r.value);
        }
      }
    } else if IsMessage(p) {
      assert [p] + Deliveries(script, k, k) == AsPackets((acc + [p.value.message])[|acc|..]);
    }
  }

  /** A collection fails only on a reply that is not a message, after
      messages not marked last, or on a script that ends while waiting. */
  lemma {:induction false} CollectFailure(script: seq<Incoming>, k: nat, p: Option<Packet>, acc: seq<Message>)
    requires k <= |script|
    decreases |script| - k
    ensures var (r, e) := Collect(script, k, p, acc);
            r.Failure? ==>
              && (r.error == UnexpectedError || r.error == Blocked)
              && k <= e <= |script|
              && var got := [p] + Deliveries(script, k, e);
                 && (forall i :: 0 <= i < |got| - 1 ==> IsMessage(got[i]) && !got[i].value.message.last)
                 && (r.error == UnexpectedError ==> !IsMessage(got[|got| - 1]))
                 && (r.error == Blocked ==> e == |script| && IsMessage(got[|got| - 1]) && !got[|got| - 1].value.message.last)
  {
    if IsMessage(p) && !p.value.message.last {
      var m := p.value.message;
      var (next, j) := NextDelivery(script, k);
      if next.Some? {
        CollectFailure(script, j, next.value, acc + [m]);
        var (r, e) := Collect(script, j, next.value, acc + [m]);
        if r.Failure? {
          DeliveriesSplit(script, k, j, e);
          assert [p] + Deliveries(script, k, e) == [p] + ([next.value] + Deliveries(script, j, e));
        }
      }
    }
  }

  /** A bare OK answer to the listing command is the empty list. */
  lemma ListBareOK(c: Codec, script: seq<Incoming>, pos: nat, filter: string)
    requires At(script, pos) == Delivered(Some(OK))
    ensures ListSpec(c, script, pos, filter).result == Success([])
  {
  }

  /** ATZ, the reset command. */
  function Atz(c: Codec): string {
    FormatCommand(c, "Z", [])
  }

  /** The modem answered the reset command sent with script position k:
      something other than ERROR was delivered, which is exactly when send
      succeeds. */
  predicate ResetAnswered(script: seq<Incoming>, k: nat) {
    var inc := At(script, k);
    inc.Delivered? && inc.reply != Some(ERROR)
  }

  /** The reset loop from attempt i: ATZ; on failure, give up after attempt 4
      or send an escape (its answer ignored) and try again. */
  function ResetSpec(c: Codec, script: seq<Incoming>, pos: nat, i: nat): (t: Trace<bool>)
    requires i <= 4
    decreases 4 - i
    ensures 1 <= |t.wrote| <= 2 * (5 - i) - 1
    ensures t.next == pos + |t.wrote|
    ensures t.result ==> ResetAnswered(script, t.next - 1)
    ensures !t.result ==> |t.wrote| == 2 * (5 - i) - 1
  {
    if ResetAnswered(script, pos) then Trace(true, pos + 1, [Atz(c)])
    else if i > 3 then Trace(false, pos + 1, [Atz(c)])
    else
      var rest := ResetSpec(c, script, pos + 2, i + 1);
      Trace(rest.result, rest.next, [Atz(c), ESC] + rest.wrote)
  }

  /** An unanswered ATZ before the last attempt is followed by an escape
      and the next attempt, two script positions on. */
  lemma ResetRetry(c: Codec, script: seq<Incoming>, pos: nat, i: nat)
    requires i <= 3 && !ResetAnswered(script, pos)
    ensures var rest := ResetSpec(c, script, pos + 2, i + 1);
            ResetSpec(c, script, pos, i) == Trace(rest.result, rest.next, [Atz(c), ESC] + rest.wrote)
  {
  }

  /** An answered ATZ, or the last attempt, ends the loop. */
  lemma ResetStop(c: Codec, script: seq<Incoming>, pos: nat, i: nat)
    requires i <= 4 && (ResetAnswered(script, pos) || i == 4)
    ensures ResetSpec(c, script, pos, i) == Trace(ResetAnswered(script, pos), pos + 1, [Atz(c)])
  {
  }

  /** The reset loop at attempt i and script position pos, with the lines
      w written so far, will finish with the given result and position and
      with the lines final written. */
  predicate ResetOnTrack(c: Codec, script: seq<Incoming>, pos: nat, i: nat, w: seq<string>,
                         result: bool, next: nat, final: seq<string>) {
    i <= 4 &&
    var t := ResetSpec(c, script, pos, i);
    t.result == result && t.next == next && w + t.wrote == final
  }

  /** A failed attempt before the last keeps the loop on track, two script
      positions on, with ATZ and ESC written. */
  lemma ResetOnTrackRetry(c: Codec, script: seq<Incoming>, pos: nat, i: nat, w: seq<string>,
                          result: bool, next: nat, final: seq<string>)
    requires ResetOnTrack(c, script, pos, i, w, result, next, final)
    requires i <= 3 && !ResetAnswered(script, pos)
    ensures ResetOnTrack(c, script, pos + 2, i + 1, w + [Atz(c), ESC], result, next, final)
  {
    ResetRetry(c, script, pos, i);
    var rest := ResetSpec(c, script, pos + 2, i + 1).wrote;
    assert w + ([Atz(c), ESC] + rest) == (w + [Atz(c), ESC]) + rest;
  }

  /** An answered attempt, or the last one, is where the loop finishes. */
  lemma ResetOnTrackStop(c: Codec, script: seq<Incoming>, pos: nat, i: nat, w: seq<string>,
                         result: bool, next: nat, final: seq<string>)
    requires ResetOnTrack(c, script, pos, i, w, result, next, final)
    requires ResetAnswered(script, pos) || i == 4
    ensures result == ResetAnswered(script, pos) && next == pos + 1 && final == w + [Atz(c)]
  {
    ResetStop(c, script, pos, i);
  }

  /** The lines of n reset attempts: ATZ and ESC alternating, ATZ first and
      last. */
  function ResetWrites(c: Codec, n: nat): (w: seq<string>)
    requires n >= 1
    ensures |w| == 2 * n - 1
    ensures forall k :: 0 <= k < |w| ==> w[k] == if k % 2 == 0 then Atz(c) else ESC
  {
    if n == 1 then [Atz(c)] else [Atz(c), ESC] + ResetWrites(c, n - 1)
  }

  /** The number of ATZ the reset loop sends from attempt i: it stops at
      the first answered one, and after attempt 4. */
  function Attempts(script: seq<Incoming>, pos: nat, i: nat): (n: nat)
    requires i <= 4
    decreases 4 - i
    ensures 1 <= n <= 5 - i
  {
    if ResetAnswered(script, pos) || i > 3 then 1 else 1 + Attempts(script, pos + 2, i + 1)
  }

  /** What the reset loop writes: one ATZ per attempt with an ESC between
      attempts, each line taking one answer from the script. */
  lemma {:induction false} ResetShape(c: Codec, script: seq<Incoming>, pos: nat, i: nat)
    requires i <= 4
    decreases 4 - i
    ensures var t := ResetSpec(c, script, pos, i);
            var n := Attempts(script, pos, i);
            t.wrote == ResetWrites(c, n) && t.next == pos + 2 * n - 1
  {
    if !ResetAnswered(script, pos) && i <= 3 {
      ResetShape(c, script, pos + 2, i + 1);
      var m := Attempts(script, pos + 2, i + 1);
      assert [Atz(c), ESC] + ResetWrites(c, m) == ResetWrites(c, m + 1);
    }
  }

  /** The retry budget: every attempt but the last went unanswered; the
      loop succeeds exactly when the last ATZ was answered, and gives up
      only after the fifth. */
  lemma {:induction false} ResetOutcome(c: Codec, script: seq<Incoming>, pos: nat, i: nat)
    requires i <= 4
    decreases 4 - i
    ensures var t := ResetSpec(c, script, pos, i);
            var n := Attempts(script, pos, i);
            && (forall j :: 0 <= j < n - 1 ==> !ResetAnswered(script, pos + 2 * j))
            && (t.result <==> ResetAnswered(script, pos + 2 * (n - 1)))
            && (!t.result ==> n == 5 - i)
  {
    if !ResetAnswered(script, pos) && i <= 3 {
      ResetOutcome(c, script, pos + 2, i + 1);
      var m := Attempts(script, pos + 2, i + 1);
      forall j | 0 <= j < m
        ensures !ResetAnswered(script, pos + 2 * j)
      {
        if j > 0 {
          assert pos + 2 * j == pos + 2 + 2 * (j - 1);
        }
      }
      assert pos + 2 * m == pos + 2 + 2 * (m - 1);
    }
  }

  /** Initialization gives up on the reset exactly when all five ATZ went
      unanswered. */
  lemma ResetGivesUp(c: Codec, script: seq<Incoming>, pos: nat)
    ensures !ResetSpec(c, script, pos, 0).result <==>
            forall j :: 0 <= j < 5 ==> !ResetAnswered(script, pos + 2 * j)
  {
    ResetOutcome(c, script, pos, 0);
    var n := Attempts(script, pos, 0);
    if forall j :: 0 <= j < 5 ==> !ResetAnswered(script, pos + 2 * j) {
      assert !ResetAnswered(script, pos + 2 * (n - 1));
    }
  }

  /** The +CPMS command that selects SIM storage for all three areas. */
  function CpmsSelect(c: Codec): string {
    FormatCommand(c, "+CPMS", [Str("SM"), Str("SM"), Str("SM")])
  }

  function CscaQuery(c: Codec): string {
    FormatCommand(c, "+CSCA?", [])
  }

  /** The configuration after a successful reset: echo off, storage, text
      mode (its answer ignored), then the service centre address read back
      and set again. A reply of the wrong kind where init asserts one is a
      panic. */
  function ConfigureSpec(c: Codec, script: seq<Incoming>, pos: nat): (t: Trace<Option<Error>>)
    ensures 1 <= |t.wrote| <= 5 && t.next == pos + |t.wrote|
    ensures t.result.None? ==> |t.wrote| == 5
    ensures t.result != Some(CouldNotReset)
  {
    var e0 := FormatCommand(c, "E0", []);
    var a := Answer(At(script, pos), e0);
    if a.Failure? then Trace(Some(a.error), pos + 1, [e0])
    else
      var b := Answer(At(script, pos + 1), CpmsSelect(c));
      if b.Failure? then Trace(Some(b.error), pos + 2, [e0, CpmsSelect(c)])
      else if !(b.value.Some? && b.value.value.StorageInfoPacket?) then Trace(Some(Panic), pos + 2, [e0, CpmsSelect(c)])
      else
        var cmgf := FormatCommand(c, "+CMGF", [Int(1)]);
        var d := Answer(At(script, pos + 3), CscaQuery(c));
        var four := [e0, CpmsSelect(c), cmgf, CscaQuery(c)];
        if d.Failure? then Trace(Some(d.error), pos + 4, four)
        else if !(d.value.Some? && d.value.value.SMSCAddress?) then Trace(Some(Panic), pos + 4, four)
        else
          var setCmd := FormatCommand(c, "+CSCA", d.value.value.args);
          Trace(ErrorOf(Answer(At(script, pos + 4), setCmd)), pos + 5, four + [setCmd])
  }

  /** init after the listener is ready: reset, then configure. */
  function InitSpec(c: Codec, script: seq<Incoming>, pos: nat): (t: Trace<Option<Error>>)
    ensures t.next == pos + |t.wrote|
    ensures t.result == Some(CouldNotReset) <==> !ResetSpec(c, script, pos, 0).result
  {
    var r := ResetSpec(c, script, pos, 0);
    if !r.result then Trace(Some(CouldNotReset), r.next, r.wrote)
    else
      var t := ConfigureSpec(c, script, r.next);
      Trace(t.result, t.next, r.wrote + t.wrote)
  }

  /** The service centre address is set from exactly the arguments the
      query returned: after a successful configuration, the last two lines
      written are the query and the set command built from its reply. */
  lemma ConfigureEchoesSmsc(c: Codec, script: seq<Incoming>, pos: nat)
    ensures var t := ConfigureSpec(c, script, pos);
            t.result.None? ==>
              var q := At(script, pos + 3);
              && q.Delivered? && q.reply.Some? && q.reply.value.SMSCAddress?
              && |t.wrote| == 5
              && t.wrote[3] == CscaQuery(c)
              && t.wrote[4] == FormatCommand(c, "+CSCA", q.reply.value.args)
  {
  }

  /** Configuration succeeds exactly when echo-off and storage selection
      are answered, storage with a storage report, the query with an
      address, and the set command is answered; the text-mode answer does
      not matter. */
  lemma ConfigureSucceeds(c: Codec, script: seq<Incoming>, pos: nat)
    ensures var t := ConfigureSpec(c, script, pos);
            t.result.None? <==>
              && Answer(At(script, pos), FormatCommand(c, "E0", [])).Success?
              && At(script, pos + 1).Delivered?
              && At(script, pos + 1).reply.Some? && At(script, pos + 1).reply.value.StorageInfoPacket?
              && At(script, pos + 3).Delivered?
              && At(script, pos + 3).reply.Some? && At(script, pos + 3).reply.value.SMSCAddress?
              && Answer(At(script, pos + 4), FormatCommand(c, "+CSCA", At(script, pos + 3).reply.value.args)).Success?
  {
  }

  /** A successful init ends by setting the service centre address to the
      one the modem reported, after one to five reset attempts. */
  lemma InitEchoesSmsc(c: Codec, script: seq<Incoming>, pos: nat)
    ensures var t := InitSpec(c, script, pos);
            t.result.None? ==>
              var q := At(script, t.next - 2);
              && t.next >= pos + 6
              && |t.wrote| >= 6
              && q.Delivered? && q.reply.Some? && q.reply.value.SMSCAddress?
              && t.wrote[|t.wrote| - 2] == CscaQuery(c)
              && t.wrote[|t.wrote| - 1] == FormatCommand(c, "+CSCA", q.reply.value.args)
  {
    var r := ResetSpec(c, script, pos, 0);
    ResetShape(c, script, pos, 0);
    if r.result {
      ConfigureEchoesSmsc(c, script, r.next);
    }
  }

  /** sendBody: the command, and the body with its terminator only when
      the command was answered by the body prompt. */
  function SendBodySpec(c: Codec, script: seq<Incoming>, pos: nat, cmd: string, body: string, args: seq<Arg>)
    : (t: Trace<Result<Option<Packet>>>)
    ensures 1 <= |t.wrote| <= 2 && t.next == pos + |t.wrote|
    ensures t.result.Success? ==> |t.wrote| == 2
  {
    var line := FormatCommand(c, cmd, args);
    var a := Answer(At(script, pos), line);
    if a.Failure? then Trace(a, pos + 1, [line])
    else if a.value != Some(BodyPrompt) then Trace(Failure(ExpectedBodyPrompt), pos + 1, [line])
    else Trace(Answer(At(script, pos + 1), body + END_BODY), pos + 2, [line, body + END_BODY])
  }

  /** The body is written, terminated by the substitute character, exactly
      when the command's answer is the body prompt; its result is then the
      answer to the body. */
  lemma SendBodyAfterPrompt(c: Codec, script: seq<Incoming>, pos: nat, cmd: string, body: string, args: seq<Arg>)
    ensures var t := SendBodySpec(c, script, pos, cmd, body, args);
            var prompted := At(script, pos) == Delivered(Some(BodyPrompt));
            && 1 <= |t.wrote| <= 2
            && t.wrote[0] == FormatCommand(c, cmd, args)
            && (|t.wrote| == 2 <==> prompted)
            && (prompted ==> t.wrote[1] == body + END_BODY && t.result == Answer(At(script, pos + 1), body + END_BODY))
            && (!prompted && At(script, pos).Delivered? && At(script, pos).reply != Some(ERROR) ==> t.result == Failure(ExpectedBodyPrompt))
  {
  }

  /** The modem as its callers see it: every command goes out through
      `send`, whose answer is the next script entry. */
  class Modem {
    const codec: Codec
    const script: seq<Incoming>
    var pos: nat
    var written: seq<string>

    constructor(c: Codec, s: seq<Incoming>)
      ensures codec == c && script == s && pos == 0 && written == []
    {
      codec, script := c, s;
      pos, written := 0, [];
    }

    /** send: write the command and wait for one answer. */
    method Send(cmd: string) returns (r: Result<Option<Packet>>)
      modifies this
      ensures r == Answer(At(script, old(pos)), cmd)
      ensures pos == old(pos) + 1 && written == old(written) + [cmd]
    {
      written := written + [cmd];
      var inc := if pos < |script| then script[pos] else Silence;
      pos := pos + 1;
      match inc {
        case Silence => r := Failure(TimedOut(cmd));
        case Delivered(p) =>
          if p == Some(ERROR) {
            r := Failure(ErrorResponse);
          } else {
            r := Success(p);
          }
      }
    }

    /** A raw read of the reply channel: wait until something is delivered;
        None when the script ends first. */
    method Receive() returns (p: Option<Option<Packet>>)
      modifies this
      ensures (p, pos) == NextDelivery(script, old(pos))
      ensures written == old(written)
    {
      while pos < |script| && script[pos].Silence?
        invariant NextDelivery(script, pos) == NextDelivery(script, old(pos))
        invariant written == old(written)
        decreases |script| - pos
      {
        pos := pos + 1;
      }
      if pos < |script| {
        p := Some(script[pos].reply);
        pos := pos + 1;
      } else {
        p := None;
      }
    }

    method GetMessage(n: int) returns (r: Result<Message>)
      modifies this
      ensures r == GetMessageOf(Answer(At(script, old(pos)), FormatCommand(codec, "+CMGR", [Int(n)])), n)
      ensures pos == old(pos) + 1 && written == old(written) + [FormatCommand(codec, "+CMGR", [Int(n)])]
    {
      var a := Send(FormatCommand(codec, "+CMGR", [Int(n)]));
      if a.Failure? {
        return Failure(a.error);
      }
      if a.value.Some? && a.value.value.MessagePacket? {
        var msg := a.value.value.message;
        msg := msg.(index := n);
        return Success(msg);
      }
      return Failure(MessageNotFound);
    }

    method ListMessages(filter: string) returns (r: Result<seq<Message>>)
      modifies this
      ensures var t := ListSpec(codec, script, old(pos), filter);
              r == t.result && pos == t.next && written == old(written) + t.wrote
    {
      ghost var start := pos;
      var cmd := FormatCommand(codec, "+CMGL", [Str(filter)]);
      var a := Send(cmd);
      if a.Failure? {
        return Failure(a.error);
      }
      if a.value == Some(OK) {
        return Success([]);
      }
      var packet := a.value;
      var res: seq<Message> := [];
      while true
        invariant pos <= |script|
        invariant Collect(script, pos, packet, res) == Collect(script, start + 1, a.value, [])
        invariant written == old(written) + [cmd]
        decreases |script| - pos
      {
        if !(packet.Some? && packet.value.MessagePacket?) {
          return Failure(UnexpectedError);
        }
        var msg := packet.value.message;
        res := res + [msg];
        if msg.last {
          return Success(res);
        }
        var next := Receive();
        if next.None? {
          return Failure(Blocked);
        }
        packet := next.value;
      }
    }

    method SupportedStorageAreas() returns (r: Result<StorageAreas>)
      modifies this
      ensures r == StorageAreasOf(Answer(At(script, old(pos)), FormatCommand(codec, "+CPMS", [Str("?")])))
      ensures pos == old(pos) + 1 && written == old(written) + [FormatCommand(codec, "+CPMS", [Str("?")])]
    {
      var a := Send(FormatCommand(codec, "+CPMS", [Str("?")]));
      if a.Failure? {
        return Failure(a.error);
      }
      if a.value.Some? && a.value.value.StorageAreasPacket? {
        return Success(a.value.value.areas);
      }
      return Failure(UnexpectedResponseType);
    }

    method DeleteMessage(n: int) returns (err: Option<Error>)
      modifies this
      ensures err == ErrorOf(Answer(At(script, old(pos)), FormatCommand(codec, "+CMGD", [Int(n)])))
      ensures pos == old(pos) + 1 && written == old(written) + [FormatCommand(codec, "+CMGD", [Int(n)])]
    {
      var a := Send(FormatCommand(codec, "+CMGD", [Int(n)]));
      err := if a.Failure? then Some(a.error) else None;
    }

    method SendBody(cmd: string, body: string, args: seq<Arg>) returns (r: Result<Option<Packet>>)
      modifies this
      ensures var t := SendBodySpec(codec, script, old(pos), cmd, body, args);
              r == t.result && pos == t.next && written == old(written) + t.wrote
    {
      var a := Send(FormatCommand(codec, cmd, args));
      if a.Failure? {
        return a;
      }
      if a.value != Some(BodyPrompt) {
        return Failure(ExpectedBodyPrompt);
      }
      r := Send(body + END_BODY);
    }

    method SendMessage(telephone: string, body: string) returns (err: Option<Error>)
      modifies this
      ensures var t := SendBodySpec(codec, script, old(pos), "+CMGS", codec.gsmEncode(body), [Str(telephone)]);
              err == ErrorOf(t.result) && pos == t.next && written == old(written) + t.wrote
    {
      var enc := codec.gsmEncode(body);
      var r := SendBody("+CMGS", enc, [Str(telephone)]);
      err := if r.Failure? then Some(r.error) else None;
    }

    /** One turn of the reset loop: ATZ, and after an unanswered ATZ
        that is not the last attempt, the escape. */
    method ResetAttempt(i: nat) returns (answered: bool)
      modifies this
      ensures answered == ResetAnswered(script, old(pos))
      ensures answered || i > 3 ==> pos == old(pos) + 1 && written == old(written) + [Atz(codec)]
      ensures !answered && i <= 3 ==> pos == old(pos) + 2 && written == old(written) + [Atz(codec), ESC]
    {
      var a := Send(Atz(codec));
      answered := a.Success?;
      if !answered && i <= 3 {
        var ignored := Send(ESC);
      }
    }

    /** The reset loop of init. */
    method Reset() returns (ok: bool)
      modifies this
      ensures var t := ResetSpec(codec, script, old(pos), 0);
              ok == t.result && pos == t.next && written == old(written) + t.wrote
    {
      ghost var total := ResetSpec(codec, script, pos, 0);
      ghost var final := written + total.wrote;
      var i := 0;
      while true
        invariant ResetOnTrack(codec, script, pos, i, written, total.result, total.next, final)
        decreases 4 - i
      {
        ghost var at := pos;
        ghost var w := written;
        var answered := ResetAttempt(i);
        if answered || i > 3 {
          ResetOnTrackStop(codec, script, at, i, w, total.result, total.next, final);
          return answered;
        }
        ResetOnTrackRetry(codec, script, at, i, w, total.result, total.next, final);
        i := i + 1;
      }
    }

    /** init after the ready signal. */
    method Init() returns (err: Option<Error>)
      modifies this
      ensures var t := InitSpec(codec, script, old(pos));
              err == t.result && pos == t.next && written == old(written) + t.wrote
    {
      var ok := Reset();
      if !ok {
        return Some(CouldNotReset);
      }
      ghost var r := ResetSpec(codec, script, old(pos), 0);
      ghost var mid := pos;
      err := Configure();
      ghost var t := ConfigureSpec(codec, script, mid);
      assert written == old(written) + (r.wrote + t.wrote);
    }

    /** The steps of init after the reset. */
    method Configure() returns (err: Option<Error>)
      modifies this
      ensures var t := ConfigureSpec(codec, script, old(pos));
              err == t.result && pos == t.next && written == old(written) + t.wrote
    {
      ghost var start, before := pos, written;
      var e0 := FormatCommand(codec, "E0", []);
      var a := Send(e0);
      if a.Failure? {
        return Some(a.error);
      }
      var b := Send(CpmsSelect(codec));
      assert written == before + [e0, CpmsSelect(codec)];
      if b.Failure? {
        return Some(b.error);
      }
      if !(b.value.Some? && b.value.value.StorageInfoPacket?) {
        return Some(Panic);
      }
      var cmgf := FormatCommand(codec, "+CMGF", [Int(1)]);
      var ignored := Send(cmgf);
      var d := Send(CscaQuery(codec));
      ghost var four := [e0, CpmsSelect(codec), cmgf, CscaQuery(codec)];
      assert pos == start + 4 && written == before + four;
      if d.Failure? {
        return Some(d.error);
      }
      if !(d.value.Some? && d.value.value.SMSCAddress?) {
        return Some(Panic);
      }
      var smsc := d.value.value;
      var setCmd := FormatCommand(codec, "+CSCA", smsc.args);
      var f := Send(setCmd);
      assert written == before + (four + [setCmd]);
      err := if f.Failure? then Some(f.error) else None;
    }
  }
}
