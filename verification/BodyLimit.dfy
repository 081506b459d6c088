/** The request body limiter and, behind it, the request governor. */
module BodyLimit {
  import opened Common
  import opened Decimal

  type Byte = b: nat | b < 256

  /** What `receive` yields. */
  datatype Message = Disconnect | Request(body: seq<Byte>, more: bool)

  /** How a request ends at the limiter. `Waiting` stands for a channel that has nothing more to say yet;
      `Ran` hands the application the whole body and then the rest of the channel. */
  datatype Outcome = Status(code: nat) | Gone | Waiting | Ran(body: seq<Byte>, rest: seq<Message>)

  /** The verdict on the Content-Length headers alone (section 8.6 of RFC 9110). */
  function CheckLengths(lengths: seq<string>, limit: nat): Option<nat> {
    if lengths == [] then None
    else if |lengths| != 1 || !IsDigits(lengths[0]) then Some(400)
    else if Exceeds(lengths[0], limit) then Some(413)
    else None
  }

  function Intake(limit: nat, got: seq<Byte>, ms: seq<Message>): Outcome
    decreases |ms|
  {
    if ms == [] then Waiting
    else if ms[0].Disconnect? then Gone
    else if |got| + |ms[0].body| > limit then Status(413)
    else if !ms[0].more then Ran(got + ms[0].body, ms[1..])
    else Intake(limit, got + ms[0].body, ms[1..])
  }

  function Handle(limit: nat, lengths: seq<string>, ms: seq<Message>): Outcome {
    var refused := CheckLengths(lengths, limit);
    if refused.Some? then Status(refused.value) else Intake(limit, [], ms)
  }

  /** The middleware call; `peak` is the largest size the buffer ever had. */
  method Call(limit: nat, lengths: seq<string>, channel: seq<Message>) returns (r: Outcome, ghost peak: nat)
    ensures r == Handle(limit, lengths, channel)
    ensures peak <= limit
  {
    peak := 0;
    if lengths != [] {
      if |lengths| != 1 || !IsDigits(lengths[0]) {
        return Status(400), peak;
      }
      var stripped := StripZeros(lengths[0]);
      var normalized := if stripped == "" then "0" else stripped;
      var ceiling := ToDecimal(limit);
      if |normalized| > |ceiling| || (|normalized| == |ceiling| && LexGreater(normalized, ceiling)) {
        return Status(413), peak;
      }
    }
    var body: seq<Byte>, next := [], 0;
    while true
      invariant 0 <= next <= |channel| && |body| <= limit && peak <= limit
      invariant Handle(limit, lengths, channel) == Intake(limit, body, channel[next..])
      decreases |channel| - next
    {
      if next == |channel| {
        return Waiting, peak;
      }
      var message := channel[next];
      next := next + 1;
      assert channel[next - 1..][1..] == channel[next..];
      if message.Disconnect? {
        return Gone, peak;
      }
      if |body| + |message.body| > limit {
        return Status(413), peak;
      }
      body := body + message.body;
      if |body| > peak { peak := |body|; }
      if !message.more {
        break;
      }
    }
    r := Ran(body, channel[next..]);
  }

  /** The `receive` the application gets: the buffered body once, the real channel from then on. */
  class Replay {
    const body: seq<Byte>
    var delivered: bool
    var channel: seq<Message>

    ghost function Remaining(): seq<Message>
      reads this
    {
      (if delivered then [] else [Request(body, false)]) + channel
    }

    constructor (body: seq<Byte>, rest: seq<Message>)
      ensures Remaining() == [Request(body, false)] + rest
    {
      this.body, delivered, channel := body, false, rest;
    }

    method Receive() returns (m: Option<Message>)
      modifies this
      ensures old(Remaining()) == [] ==> m == None && Remaining() == []
      ensures old(Remaining()) != [] ==> m == Some(old(Remaining())[0]) && Remaining() == old(Remaining())[1..]
    {
      if !delivered {
        delivered := true;
        return Some(Request(body, false));
      }
      if channel == [] {
        return None;
      }
      m := Some(channel[0]);
      channel := channel[1..];
    }
  }

  // ---------- buffering does not see chunk boundaries ----------

  function Flatten(chunks: seq<seq<Byte>>): seq<Byte> {
    if chunks == [] then [] else chunks[0] + Flatten(chunks[1..])
  }

  /** Chunks that announce more to come, then a tail. */
  function Open(chunks: seq<seq<Byte>>, tail: seq<Message>): seq<Message> {
    if chunks == [] then tail else [Request(chunks[0], true)] + Open(chunks[1..], tail)
  }

  lemma {:induction false} IntakeOfOpen(limit: nat, got: seq<Byte>, chunks: seq<seq<Byte>>, tail: seq<Message>)
    requires |got| <= limit
    ensures Intake(limit, got, Open(chunks, tail)) ==
              if |got| + |Flatten(chunks)| > limit then Status(413) else Intake(limit, got + Flatten(chunks), tail)
    decreases |chunks|
  {
    if chunks == [] {
      assert got + [] == got;
    } else {
      var first, rest := chunks[0], Open(chunks[1..], tail);
      assert Open(chunks, tail) == [Request(first, true)] + rest;
      IntakeStep(limit, got, first, rest);
      assert |Flatten(chunks)| == |first| + |Flatten(chunks[1..])|;
      if |got| + |first| <= limit {
        IntakeOfOpen(limit, got + first, chunks[1..], tail);
        assert got + first + Flatten(chunks[1..]) == got + Flatten(chunks);
      }
    }
  }

  lemma IntakeStep(limit: nat, got: seq<Byte>, chunk: seq<Byte>, rest: seq<Message>)
    ensures Intake(limit, got, [Request(chunk, true)] + rest) ==
              if |got| + |chunk| > limit then Status(413) else Intake(limit, got + chunk, rest)
  {
    assert ([Request(chunk, true)] + rest)[1..] == rest;
  }

  /** How an upload can go: completed by a last chunk, cut by a disconnect, or still open. */
  datatype Ending = Last(chunk: seq<Byte>, rest: seq<Message>) | Cut(rest: seq<Message>) | StillOpen

  function Tail(e: Ending): seq<Message> {
    match e
    case Last(chunk, rest) => [Request(chunk, false)] + rest
    case Cut(rest) => [Disconnect] + rest
    case StillOpen => []
  }

  function Total(chunks: seq<seq<Byte>>, e: Ending): seq<Byte> {
    Flatten(chunks) + if e.Last? then e.chunk else []
  }

  /** Every channel is an upload of one of the three kinds. */
  lemma {:induction false} EveryChannelIsAnUpload(ms: seq<Message>) returns (chunks: seq<seq<Byte>>, e: Ending)
    ensures ms == Open(chunks, Tail(e))
  {
    if ms == [] {
      chunks, e := [], StillOpen;
    } else if ms[0].Disconnect? {
      chunks, e := [], Cut(ms[1..]);
    } else if !ms[0].more {
      chunks, e := [], Last(ms[0].body, ms[1..]);
    } else {
      chunks, e := EveryChannelIsAnUpload(ms[1..]);
      chunks := [ms[0].body] + chunks;
      assert Open(chunks, Tail(e)) == [ms[0]] + ms[1..];
    }
  }

  /** The application runs exactly when the length headers are absent or hold one number within the limit,
      and the upload is completed within the limit; it then gets the whole body, and nothing is lost of
      what follows. Otherwise: 400 for a malformed length, 413 as soon as anything is over the limit, and
      silence for a disconnect. Only the total counts, never how it was cut into chunks. */
  lemma OutcomeOfUpload(limit: nat, lengths: seq<string>, chunks: seq<seq<Byte>>, e: Ending)
    ensures Handle(limit, lengths, Open(chunks, Tail(e))) ==
              if lengths != [] && (|lengths| != 1 || !IsDigits(lengths[0])) then Status(400)
              else if lengths != [] && Value(lengths[0]) > limit then Status(413)
              else if |Total(chunks, e)| > limit then Status(413)
              else match e
                case Last(_, rest) => Ran(Total(chunks, e), rest)
                case Cut(_) => Gone
                case StillOpen => Waiting
  {
    if |lengths| == 1 && IsDigits(lengths[0]) { ExceedsIsNumeric(lengths[0], limit); }
    IntakeOfOpen(limit, [], chunks, Tail(e));
    assert [] + Flatten(chunks) == Flatten(chunks);
    assert Flatten(chunks) + [] == Flatten(chunks);
    if e.Last? { assert Tail(e)[1..] == e.rest; }
  }

  lemma ChunkingIsIrrelevant(limit: nat, lengths: seq<string>, a: seq<seq<Byte>>, b: seq<seq<Byte>>, e: Ending, f: Ending)
    requires Total(a, e) == Total(b, f)
    requires match e
             case Last(_, rest) => f.Last? && f.rest == rest
             case Cut(_) => f.Cut?
             case StillOpen => f.StillOpen?
    ensures Handle(limit, lengths, Open(a, Tail(e))) == Handle(limit, lengths, Open(b, Tail(f)))
  {
    OutcomeOfUpload(limit, lengths, a, e);
    OutcomeOfUpload(limit, lengths, b, f);
  }

  // ---------- the governor behind the limiter ----------

  /** The governor converts the header to an integer and compares. The conversion refuses more than
      `maxDigits` characters (4300 unless the interpreter is told otherwise), leading zeros included, and
      that refusal is answered like any malformed header. */
  function Govern(length: Option<string>, limit: nat, maxDigits: nat): Option<nat> {
    if length.None? then None
    else if !IsDigits(length.value) || |length.value| > maxDigits then Some(400)
    else if Value(length.value) > limit then Some(413)
    else None
  }

  /** On a digit string, of any length and with any leading zeros, the two agree exactly up to
      `maxDigits` characters; on anything else they agree. */
  lemma GovernorAgreesIff(s: string, limit: nat, maxDigits: nat)
    ensures CheckLengths([s], limit) == Govern(Some(s), limit, maxDigits) <==> !IsDigits(s) || |s| <= maxDigits
  {
    if IsDigits(s) { ExceedsIsNumeric(s, limit); }
  }

  /** What the limiter lets through the governor lets through, unless the one header is too long to
      convert: then it answers 400. */
  lemma GovernorBehindLimiter(lengths: seq<string>, limit: nat, maxDigits: nat)
    requires CheckLengths(lengths, limit) == None
    ensures |lengths| <= 1
    ensures Govern(if lengths == [] then None else Some(lengths[0]), limit, maxDigits) ==
              if lengths != [] && |lengths[0]| > maxDigits then Some(400) else None
  {
    if lengths != [] {
      assert lengths == [lengths[0]];
      GovernorAgreesIff(lengths[0], limit, maxDigits);
    }
  }

  /** The input: one zero more than can be converted. It says that the body is empty, the limiter strips it
      to "0" and passes the request at every limit, and the governor refuses it. */
  lemma LongZeroIsRefused(limit: nat, maxDigits: nat) returns (s: string)
    ensures IsDigits(s) && Value(s) == 0 && |s| == maxDigits + 1
    ensures CheckLengths([s], limit) == None && Govern(Some(s), limit, maxDigits) == Some(400)
  {
    s := Zeros(maxDigits + 1);
    ZerosAreZero(maxDigits + 1);
    ExceedsIsNumeric(s, limit);
  }

  function Zeros(n: nat): string { seq(n, _ => '0') }

  lemma {:induction false} ZerosAreZero(n: nat)
    ensures Value(Zeros(n)) == 0
  {
    if n > 0 {
      assert Zeros(n)[..n - 1] == Zeros(n - 1);
      ZerosAreZero(n - 1);
    }
  }

  /** What the application sends back: response starts and body parts. */
  datatype Sent = ResponseStart(status: nat) | ResponseBody

  /** The statuses to report: that of the first response start, if there is one. */
  function Reports(sent: seq<Sent>): (r: seq<nat>)
    ensures |r| <= 1
    ensures r == [] <==> forall m | m in sent :: !m.ResponseStart?
  {
    if sent == [] then [] else
      var init, m := sent[..|sent| - 1], sent[|sent| - 1];
      var before := Reports(init);
      assert sent == init + [m];
      if before == [] && m.ResponseStart? then [m.status] else before
  }

  lemma {:induction false} FirstStartIsReported(sent: seq<Sent>, i: nat)
    requires i < |sent| && sent[i].ResponseStart? && forall j :: 0 <= j < i ==> !sent[j].ResponseStart?
    ensures Reports(sent) == [sent[i].status]
  {
    var init := sent[..|sent| - 1];
    if i < |init| {
      FirstStartIsReported(init, i);
    } else {
      assert forall m | m in init :: !m.ResponseStart?;
    }
  }

  /** The governor's `send`: it passes every message on and reports completion once. */
  class Governor {
    var started: bool
    var reported: seq<nat>
    var sent: seq<Sent>

    ghost predicate Valid()
      reads this
    {
      reported == Reports(sent) && (started <==> reported != [])
    }

    constructor ()
      ensures Valid() && sent == []
    {
      started, reported, sent := false, [], [];
    }

    method Send(m: Sent)
      requires Valid()
      modifies this
      ensures Valid() && sent == old(sent) + [m]
    {
      if m.ResponseStart? && !started {
        started := true;
        reported := reported + [m.status];
      }
      assert (sent + [m])[..|sent|] == sent;
      sent := sent + [m];
    }
  }
}
