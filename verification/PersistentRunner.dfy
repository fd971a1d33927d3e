/** The persistent comparator runner: a framed protocol of numbered rounds in which no result
    leaves the process before a matching publish. */
module PersistentRunner {
  import opened Ordering
  import opened Varint

  // ----- Frames

  /** The string constants of the protocol; any other text is `Other`. */
  datatype Text =
    | HandshakeSchema | RequestSchema | PreparedSchema | ExecuteSchema | CompletedSchema
    | PublishSchema | ResponseSchema | ShutdownSchema | ShutdownAckSchema | ProtocolSchema
    | Other(text: string)

  datatype Name = Schema | Protocol | Sequence | Pid | Request | InstanceId | Outcome | Extra(name: string)

  datatype Value = String(text: Text) | Integer(number: int) | Boolean(flag: bool) | Json(value: string)

  type Frame = map<Name, Value>

  function Get(f: Frame, name: Name): Option<Value>
  {
    if name in f then Some(f[name]) else None
  }

  predicate HasText(f: Frame, name: Name, text: Text)
  {
    Get(f, name) == Some(String(text))
  }

  /** An unsigned 64-bit integer; booleans are not integers. */
  predicate HasU64(f: Frame, name: Name, n: nat)
  {
    n < U64 && Get(f, name) == Some(Integer(n))
  }

  predicate IsSha256(s: string)
  {
    |s| == 64 && forall c | c in s :: ('0' <= c <= '9') || ('a' <= c <= 'f')
  }

  predicate ValidShutdown(f: Frame, n: nat)
  {
    && HasText(f, Schema, ShutdownSchema)
    && f.Keys == {Schema, Protocol, Sequence}
    && HasText(f, Protocol, ProtocolSchema)
    && HasU64(f, Sequence, n)
  }

  predicate ValidRequest(f: Frame, n: nat)
  {
    && f.Keys == {Schema, Protocol, Sequence, Request}
    && HasText(f, Schema, RequestSchema)
    && HasText(f, Protocol, ProtocolSchema)
    && HasU64(f, Sequence, n)
  }

  predicate ValidExecute(f: Frame, n: nat, pid: nat)
  {
    && f.Keys == {Schema, Protocol, Sequence, Pid}
    && HasText(f, Schema, ExecuteSchema)
    && HasText(f, Protocol, ProtocolSchema)
    && HasU64(f, Sequence, n)
    && HasU64(f, Pid, pid)
  }

  predicate ValidPublish(f: Frame, n: nat, pid: nat, id: string)
  {
    && f.Keys == {Schema, Protocol, Sequence, Pid, InstanceId}
    && HasText(f, Schema, PublishSchema)
    && HasText(f, Protocol, ProtocolSchema)
    && HasU64(f, Sequence, n)
    && HasU64(f, Pid, pid)
    && IsSha256(id)
    && HasText(f, InstanceId, Other(id))
  }

  // ----- The only frames that pass

  lemma ShutdownFrame(f: Frame, n: nat)
    ensures ValidShutdown(f, n) <==>
      n < U64 && f == map[Schema := String(ShutdownSchema), Protocol := String(ProtocolSchema), Sequence := Integer(n)]
  {
  }

  lemma RequestFrame(f: Frame, n: nat)
    ensures ValidRequest(f, n) <==>
      && n < U64 && Request in f
      && f == map[Schema := String(RequestSchema), Protocol := String(ProtocolSchema), Sequence := Integer(n),
                  Request := f[Request]]
  {
  }

  lemma ExecuteFrame(f: Frame, n: nat, pid: nat)
    ensures ValidExecute(f, n, pid) <==>
      && n < U64 && pid < U64
      && f == map[Schema := String(ExecuteSchema), Protocol := String(ProtocolSchema), Sequence := Integer(n),
                  Pid := Integer(pid)]
  {
  }

  lemma PublishFrame(f: Frame, n: nat, pid: nat, id: string)
    ensures ValidPublish(f, n, pid, id) <==>
      && n < U64 && pid < U64 && |id| == 64 && (forall c | c in id :: c in "0123456789abcdef")
      && f == map[Schema := String(PublishSchema), Protocol := String(ProtocolSchema), Sequence := Integer(n),
                  Pid := Integer(pid), InstanceId := String(Other(id))]
  {
    HexDigits(id);
  }

  lemma HexDigits(id: string)
    ensures IsSha256(id) <==> |id| == 64 && forall c | c in id :: c in "0123456789abcdef"
  {
    forall c | c in id
      ensures c in "0123456789abcdef" <==> ('0' <= c <= '9') || ('a' <= c <= 'f')
    {
      HexDigit(c);
    }
  }

  lemma HexDigit(c: char)
    ensures c in "0123456789abcdef" <==> ('0' <= c <= '9') || ('a' <= c <= 'f')
  {
    var s := "0123456789abcdef";
    assert s[0] == '0' && s[1] == '1' && s[2] == '2' && s[3] == '3' && s[4] == '4' && s[5] == '5' && s[6] == '6'
        && s[7] == '7' && s[8] == '8' && s[9] == '9' && s[10] == 'a' && s[11] == 'b' && s[12] == 'c'
        && s[13] == 'd' && s[14] == 'e' && s[15] == 'f';
  }

  function Numbered(schema: Text, n: nat): Frame
  {
    map[Schema := String(schema), Protocol := String(ProtocolSchema), Sequence := Integer(n)]
  }

  // ----- Instance identity

  function Ascii(ds: seq<digit>): (bs: Bytes)
    ensures |bs| == |ds| && forall i | 0 <= i < |ds| :: bs[i] as int == ds[i] as int + 48
  {
    seq(|ds|, i requires 0 <= i < |ds| => (ds[i] as int + 48) as byte)
  }

  const COLON: byte := 58

  /** "pid:counter:sequence" */
  function Preimage(pid: nat, counter: nat, sequence: nat): Bytes
  {
    Ascii(Digits(pid)) + [COLON] + (Ascii(Digits(counter)) + [COLON] + Ascii(Digits(sequence)))
  }

  lemma {:induction false} FirstColon(a: Bytes, b: Bytes, x: Bytes, y: Bytes)
    requires COLON !in a && COLON !in b && a + [COLON] + x == b + [COLON] + y
    ensures a == b && x == y
    decreases |a|
  {
    var s, t := a + [COLON] + x, b + [COLON] + y;
    assert a == [] ==> s[0] == COLON;
    assert b == [] ==> t[0] == COLON;
    if a == [] || b == [] {
      assert a == [] && b == [];
      assert s[1..] == x && t[1..] == y;
    } else {
      assert a[0] == s[0] == t[0] == b[0];
      assert s[1..] == a[1..] + [COLON] + x && t[1..] == b[1..] + [COLON] + y;
      FirstColon(a[1..], b[1..], x, y);
      assert a == [a[0]] + a[1..] && b == [b[0]] + b[1..];
    }
  }

  lemma AsciiInjective(m: nat, n: nat)
    requires Ascii(Digits(m)) == Ascii(Digits(n))
    ensures m == n
  {
    forall i | 0 <= i < |Digits(m)|
      ensures Digits(m)[i] == Digits(n)[i]
    {
      assert Ascii(Digits(m))[i] == Ascii(Digits(n))[i];
    }
    assert Digits(m) == Digits(n);
    DigitsDenote(m);
    DigitsDenote(n);
  }

  /** The number a decimal text stands for. */
  function Decimal(text: Bytes): int
  {
    if text == [] then 0 else 10 * Decimal(text[..|text| - 1]) + text[|text| - 1] - '0' as int
  }

  predicate IsDecimal(text: Bytes, n: nat)
  {
    && text != [] && (forall b | b in text :: '0' as int <= b <= '9' as int)
    && (|text| > 1 ==> text[0] != '0' as int)
    && Decimal(text) == n
  }

  lemma {:induction false} AsciiDenotes(ds: seq<digit>)
    ensures Decimal(Ascii(ds)) == DecValue(ds)
  {
    if ds != [] {
      var m := |ds| - 1;
      AsciiDenotes(ds[..m]);
      assert Ascii(ds)[..m] == Ascii(ds[..m]);
    }
  }

  lemma {:induction false} DigitsLeading(n: nat)
    ensures Digits(n)[0] == 0 ==> n == 0
  {
    if n >= 10 {
      DigitsLeading(n / 10);
    }
  }

  lemma AsciiDecimal(n: nat)
    ensures IsDecimal(Ascii(Digits(n)), n)
  {
    AsciiDenotes(Digits(n));
    DigitsDenote(n);
    DigitsLeading(n);
  }

  /** An instance preimage is three decimal numbers, without leading zeros, with colons between. */
  lemma PreimageText(pid: nat, counter: nat, sequence: nat) returns (i: nat, j: nat)
    ensures var p := Preimage(pid, counter, sequence);
      && i < j < |p| && p[i] == ':' as int && p[j] == ':' as int
      && IsDecimal(p[..i], pid) && IsDecimal(p[i + 1..j], counter) && IsDecimal(p[j + 1..], sequence)
  {
    var a, b, c := Ascii(Digits(pid)), Ascii(Digits(counter)), Ascii(Digits(sequence));
    var p := Preimage(pid, counter, sequence);
    i, j := |a|, |a| + 1 + |b|;
    assert p[..i] == a && p[i + 1..j] == b && p[j + 1..] == c;
    AsciiDecimal(pid);
    AsciiDecimal(counter);
    AsciiDecimal(sequence);
  }

  /** Instance preimages identify process, counter and sequence number. */
  lemma PreimageInjective(p: nat, c: nat, s: nat, q: nat, d: nat, t: nat)
    requires Preimage(p, c, s) == Preimage(q, d, t)
    ensures p == q && c == d && s == t
  {
    FirstColon(Ascii(Digits(p)), Ascii(Digits(q)),
               Ascii(Digits(c)) + [COLON] + Ascii(Digits(s)), Ascii(Digits(d)) + [COLON] + Ascii(Digits(t)));
    FirstColon(Ascii(Digits(c)), Ascii(Digits(d)), Ascii(Digits(s)), Ascii(Digits(t)));
    AsciiInjective(p, q);
    AsciiInjective(c, d);
    AsciiInjective(s, t);
  }

  // ----- The protocol

  /** The process: its identity, what else its handshake announces, the digest it uses and what it
      computes for a request. */
  datatype Process = Process(pid: nat, announced: Frame, digest: Bytes -> string, compute: Value -> Value) {
    function Instance(n: nat): string { digest(Preimage(pid, n, n)) }

    function Handshake(): Frame
    {
      announced[Schema := String(HandshakeSchema)][Protocol := String(ProtocolSchema)][Pid := Integer(pid)]
    }

    function Prepared(n: nat): Frame { Numbered(PreparedSchema, n)[Pid := Integer(pid)] }

    function Completed(n: nat, id: string): Frame
    {
      Numbered(CompletedSchema, n)[Pid := Integer(pid)][InstanceId := String(Other(id))]
    }

    function Response(n: nat, id: string, result: Value): Frame
    {
      Numbered(ResponseSchema, n)[InstanceId := String(Other(id))][Outcome := result]
    }

    function Acknowledged(n: nat): Frame { Numbered(ShutdownAckSchema, n)[Pid := Integer(pid)] }
  }

  datatype Event = Read(frame: Frame) | Wrote(frame: Frame)

  /** Where a conversation stands after some events; `n` numbers the current round. */
  datatype Phase =
    | Starting
    | Idle(n: nat)
    | Requested(n: nat, request: Value)
    | Ready(n: nat, request: Value)
    | Executing(n: nat, request: Value)
    | Finished(n: nat, request: Value)
    | Publishing(n: nat, request: Value)
    | Closing(n: nat)
    | Closed(n: nat)
    | Refused(n: nat)
    | Broken

  /** The protocol: what each event does to the conversation. A frame that may not be read here
      ends it as refused; a frame that may not be written here breaks it. */
  function Next(p: Process, phase: Phase, event: Event): Phase
  {
    match event
    case Read(f) =>
      (match phase
       case Idle(n) =>
         if ValidShutdown(f, n) then Closing(n)
         else if ValidRequest(f, n) then Requested(n, f[Request])
         else Refused(n)
       case Ready(n, request) => if ValidExecute(f, n, p.pid) then Executing(n, request) else Refused(n)
       case Finished(n, request) =>
         if ValidPublish(f, n, p.pid, p.Instance(n)) then Publishing(n, request) else Refused(n)
       case _ => Broken)
    case Wrote(f) =>
      (match phase
       case Starting => if f == p.Handshake() then Idle(0) else Broken
       case Requested(n, request) => if f == p.Prepared(n) then Ready(n, request) else Broken
       case Executing(n, request) => if f == p.Completed(n, p.Instance(n)) then Finished(n, request) else Broken
       case Publishing(n, request) =>
         if f == p.Response(n, p.Instance(n), p.compute(request)) then Idle(n + 1) else Broken
       case Closing(n) => if f == p.Acknowledged(n) then Closed(n) else Broken
       case _ => Broken)
  }

  function Conversation(p: Process, events: seq<Event>): Phase
  {
    if events == [] then Starting
    else Next(p, Conversation(p, events[..|events| - 1]), events[|events| - 1])
  }

  predicate Awaiting(phase: Phase)
  {
    phase.Idle? || phase.Ready? || phase.Finished?
  }

  lemma ConversationStep(p: Process, events: seq<Event>, event: Event)
    ensures Conversation(p, events + [event]) == Next(p, Conversation(p, events), event)
  {
    assert (events + [event])[..|events|] == events;
  }

  lemma {:induction false} ConversationPrefix(p: Process, events: seq<Event>, k: nat)
    requires k < |events| && Conversation(p, events) != Broken
    ensures var before := Conversation(p, events[..k]);
            before != Broken && Next(p, before, events[k]) != Broken
    decreases |events|
  {
    var most := events[..|events| - 1];
    assert Conversation(p, most) != Broken;
    if k < |most| {
      ConversationPrefix(p, most, k);
      assert most[..k] == events[..k];
    }
  }

  /** The frames a conversation has read. */
  function Received(events: seq<Event>): seq<Option<Frame>>
  {
    if events == [] then []
    else
      var last := events[|events| - 1];
      Received(events[..|events| - 1]) + if last.Read? then [Some(last.frame)] else []
  }

  lemma ReceivedStep(events: seq<Event>, event: Event)
    ensures Received(events + [event]) == Received(events) + if event.Read? then [Some(event.frame)] else []
  {
    assert (events + [event])[..|events|] == events;
  }

  predicate IsResponse(event: Event)
  {
    event.Wrote? && HasText(event.frame, Schema, ResponseSchema)
  }

  function Responses(events: seq<Event>): nat
  {
    if events == [] then 0
    else Responses(events[..|events| - 1]) + if IsResponse(events[|events| - 1]) then 1 else 0
  }

  /** The number of the round a conversation is in is the number of responses it has made. */
  lemma {:induction false} RoundsAreResponses(p: Process, events: seq<Event>)
    requires Conversation(p, events) != Broken
    ensures var phase := Conversation(p, events);
            Responses(events) == if phase == Starting then 0 else phase.n
  {
    if events != [] {
      RoundsAreResponses(p, events[..|events| - 1]);
    }
  }

  /** A response is made in the round with its number, and carries the id of its instance. */
  lemma ResponseNumbered(p: Process, events: seq<Event>, k: nat)
    requires Conversation(p, events) != Broken && k < |events| && IsResponse(events[k])
    ensures var n := Responses(events[..k]);
            && Conversation(p, events[..k]).Publishing? && Conversation(p, events[..k]).n == n
            && Conversation(p, events[..k + 1]) == Idle(n + 1)
            && HasText(events[k].frame, InstanceId, Other(p.Instance(n)))
            && Get(events[k].frame, Sequence) == Some(Integer(n))
  {
    ConversationPrefix(p, events, k);
    RoundsAreResponses(p, events[..k]);
    assert Conversation(p, events[..k]).Publishing?;
    TakeNext(events, k);
    ConversationStep(p, events[..k], events[k]);
  }

  lemma {:induction false} ResponsesGrow(events: seq<Event>, j: nat, k: nat)
    requires j < k <= |events| && IsResponse(events[j])
    ensures Responses(events[..j]) < Responses(events[..k])
    decreases k
  {
    assert events[..k][..k - 1] == events[..k - 1];
    if j < k - 1 {
      ResponsesGrow(events, j, k - 1);
    }
  }

  /** Two responses of a conversation carry the digests of different preimages, so that their
      instance ids are equal only where the digest collides. */
  lemma InstancesDiffer(p: Process, events: seq<Event>, j: nat, k: nat)
    requires Conversation(p, events) != Broken
    requires j < k < |events| && IsResponse(events[j]) && IsResponse(events[k])
    ensures var m, n := Responses(events[..j]), Responses(events[..k]);
            var a, b := Preimage(p.pid, m, m), Preimage(p.pid, n, n);
            && a != b
            && Get(events[j].frame, InstanceId) == Some(String(Other(p.digest(a))))
            && Get(events[k].frame, InstanceId) == Some(String(Other(p.digest(b))))
  {
    ResponseNumbered(p, events, j);
    ResponseNumbered(p, events, k);
    ResponsesGrow(events, j, k);
    var m, n := Responses(events[..j]), Responses(events[..k]);
    if Preimage(p.pid, m, m) == Preimage(p.pid, n, n) {
      PreimageInjective(p.pid, m, m, p.pid, n, n);
    }
  }

  // ----- Rounds

  /** The frames a client sends in one round. */
  datatype Exchange = Exchange(request: Frame, execute: Frame, publish: Frame)

  function Asked(x: Exchange): Value
  {
    if Request in x.request then x.request[Request] else Json("")
  }

  /** A round in full. */
  function RoundEvents(p: Process, n: nat, x: Exchange): (events: seq<Event>)
    ensures |events| == 6
  {
    [Read(x.request), Wrote(p.Prepared(n)), Read(x.execute), Wrote(p.Completed(n, p.Instance(n))),
     Read(x.publish), Wrote(p.Response(n, p.Instance(n), p.compute(Asked(x))))]
  }

  /** The frames read in the first k events of a round are the right ones. */
  predicate GoodUpTo(p: Process, n: nat, x: Exchange, k: nat)
  {
    && (k >= 1 ==> ValidRequest(x.request, n))
    && (k >= 3 ==> ValidExecute(x.execute, n, p.pid))
    && (k >= 5 ==> ValidPublish(x.publish, n, p.pid, p.Instance(n)))
  }

  function Rounds(p: Process, xs: seq<Exchange>): seq<Event>
  {
    if xs == [] then [] else Rounds(p, xs[..|xs| - 1]) + RoundEvents(p, |xs| - 1, xs[|xs| - 1])
  }

  predicate AllGood(p: Process, xs: seq<Exchange>)
  {
    xs == [] || (AllGood(p, xs[..|xs| - 1]) && GoodUpTo(p, |xs| - 1, xs[|xs| - 1], 6))
  }

  /** What may come after the complete rounds: the first events of one more, the refusal of a frame
      that was awaited in it, or a shutdown with or without its acknowledgement. */
  datatype Ending =
    | Midway(x: Exchange, k: nat)
    | Turned(x: Exchange, k: nat, frame: Frame)
    | Shutdown(frame: Frame, acknowledged: bool)

  predicate Acceptable(p: Process, n: nat, k: nat, f: Frame)
  {
    || (k == 0 && (ValidShutdown(f, n) || ValidRequest(f, n)))
    || (k == 2 && ValidExecute(f, n, p.pid))
    || (k == 4 && ValidPublish(f, n, p.pid, p.Instance(n)))
  }

  predicate GoodEnding(p: Process, n: nat, e: Ending)
  {
    match e
    case Midway(x, k) => k < 6 && GoodUpTo(p, n, x, k)
    case Turned(x, k, f) => (k == 0 || k == 2 || k == 4) && GoodUpTo(p, n, x, k) && !Acceptable(p, n, k, f)
    case Shutdown(f, _) => ValidShutdown(f, n)
  }

  function Tail(p: Process, n: nat, e: Ending): seq<Event>
  {
    match e
    case Midway(x, k) => if k <= 6 then RoundEvents(p, n, x)[..k] else []
    case Turned(x, k, f) => (if k <= 6 then RoundEvents(p, n, x)[..k] else []) + [Read(f)]
    case Shutdown(f, acknowledged) => if acknowledged then [Read(f), Wrote(p.Acknowledged(n))] else [Read(f)]
  }

  function PhaseAt(n: nat, x: Exchange, k: nat): Phase
  {
    if k == 0 then Idle(n)
    else if k == 1 then Requested(n, Asked(x))
    else if k == 2 then Ready(n, Asked(x))
    else if k == 3 then Executing(n, Asked(x))
    else if k == 4 then Finished(n, Asked(x))
    else if k == 5 then Publishing(n, Asked(x))
    else Idle(n + 1)
  }

  function EndPhase(n: nat, e: Ending): Phase
  {
    match e
    case Midway(x, k) => PhaseAt(n, x, k)
    case Turned(_, _, _) => Refused(n)
    case Shutdown(_, acknowledged) => if acknowledged then Closed(n) else Closing(n)
  }

  /** The trace: the handshake, complete rounds numbered 0, 1, 2, ..., and an ending. */
  function Trace(p: Process, xs: seq<Exchange>, e: Ending): seq<Event>
  {
    [Wrote(p.Handshake())] + Rounds(p, xs) + Tail(p, |xs|, e)
  }

  // One event more in a round.
  lemma RoundStep(p: Process, n: nat, x: Exchange, k: nat)
    requires k < 6 && GoodUpTo(p, n, x, k + 1)
    ensures Next(p, PhaseAt(n, x, k), RoundEvents(p, n, x)[k]) == PhaseAt(n, x, k + 1)
  {
    if k == 0 {
      assert !ValidShutdown(x.request, n);
    }
  }

  /** A longer conversation, taken apart before its last event. */
  lemma ConversationLater(p: Process, before: seq<Event>, round: seq<Event>, k: nat)
    requires k < |round|
    ensures Conversation(p, before + round[..k + 1]) == Next(p, Conversation(p, before + round[..k]), round[k])
  {
    assert before + round[..k + 1] == before + round[..k] + [round[k]];
    ConversationStep(p, before + round[..k], round[k]);
  }

  lemma {:induction false} RoundLeads(p: Process, before: seq<Event>, n: nat, x: Exchange, k: nat)
    requires Conversation(p, before) == Idle(n) && k <= 6 && GoodUpTo(p, n, x, k)
    ensures Conversation(p, before + RoundEvents(p, n, x)[..k]) == PhaseAt(n, x, k)
  {
    if k == 0 {
      assert before + RoundEvents(p, n, x)[..k] == before;
    } else {
      RoundLeads(p, before, n, x, k - 1);
      RoundStep(p, n, x, k - 1);
      ConversationLater(p, before, RoundEvents(p, n, x), k - 1);
    }
  }

  lemma RoundsAdd(p: Process, xs: seq<Exchange>, x: Exchange, opening: seq<Event>)
    ensures opening + Rounds(p, xs + [x]) == opening + Rounds(p, xs) + RoundEvents(p, |xs|, x)
    ensures AllGood(p, xs + [x]) <==> AllGood(p, xs) && GoodUpTo(p, |xs|, x, 6)
  {
    AppendFront(xs, x);
    var round := RoundEvents(p, |xs|, x);
    assert opening + (Rounds(p, xs) + round) == opening + Rounds(p, xs) + round;
  }

  lemma RoundsLast(p: Process, xs: seq<Exchange>, opening: seq<Event>)
    requires xs != []
    ensures var n := |xs| - 1; opening + Rounds(p, xs) == opening + Rounds(p, xs[..n]) + RoundEvents(p, n, xs[n])
    ensures AllGood(p, xs) ==> AllGood(p, xs[..|xs| - 1])
  {
    var before, round := Rounds(p, xs[..|xs| - 1]), RoundEvents(p, |xs| - 1, xs[|xs| - 1]);
    assert opening + (before + round) == opening + before + round;
  }

  lemma WholeRoundLeads(p: Process, before: seq<Event>, xs: seq<Exchange>, n: nat)
    requires AllGood(p, xs) && |xs| == n + 1 && Conversation(p, before) == Idle(n)
    ensures Conversation(p, before + RoundEvents(p, n, xs[n])) == Idle(n + 1) && AllGood(p, xs[..n])
  {
    RoundLeads(p, before, n, xs[n], 6);
    TakeAll(RoundEvents(p, n, xs[n]));
  }

  lemma RoundsLeadOn(p: Process, xs: seq<Exchange>, opening: seq<Event>, n: nat)
    requires AllGood(p, xs) && |xs| == n + 1 && Conversation(p, opening + Rounds(p, xs[..n])) == Idle(n)
    ensures Conversation(p, opening + Rounds(p, xs)) == Idle(n + 1)
  {
    RoundsLast(p, xs, opening);
    WholeRoundLeads(p, opening + Rounds(p, xs[..n]), xs, n);
  }

  lemma {:induction false} RoundsLead(p: Process, xs: seq<Exchange>, opening: seq<Event>)
    requires AllGood(p, xs) && Conversation(p, opening) == Idle(0)
    ensures Conversation(p, opening + Rounds(p, xs)) == Idle(|xs|)
    decreases |xs|
  {
    if xs == [] {
      assert opening + Rounds(p, xs) == opening;
    } else {
      RoundsLead(p, xs[..|xs| - 1], opening);
      RoundsLeadOn(p, xs, opening, |xs| - 1);
    }
  }

  lemma Opening(p: Process)
    ensures Conversation(p, [Wrote(p.Handshake())]) == Idle(0)
  {
    assert [] + [Wrote(p.Handshake())] == [Wrote(p.Handshake())];
    ConversationStep(p, [], Wrote(p.Handshake()));
  }

  lemma TurnedLeads(p: Process, before: seq<Event>, n: nat, e: Ending)
    requires Conversation(p, before) == Idle(n) && GoodEnding(p, n, e) && e.Turned?
    ensures Conversation(p, before + Tail(p, n, e)) == Refused(n)
  {
    RoundLeads(p, before, n, e.x, e.k);
    var part := RoundEvents(p, n, e.x)[..e.k];
    assert before + (part + [Read(e.frame)]) == before + part + [Read(e.frame)];
    ConversationStep(p, before + part, Read(e.frame));
  }

  lemma ShutdownLeads(p: Process, before: seq<Event>, n: nat, e: Ending)
    requires Conversation(p, before) == Idle(n) && GoodEnding(p, n, e) && e.Shutdown?
    ensures Conversation(p, before + Tail(p, n, e)) == EndPhase(n, e)
  {
    ConversationStep(p, before, Read(e.frame));
    if e.acknowledged {
      ConversationStep(p, before + [Read(e.frame)], Wrote(p.Acknowledged(n)));
      assert before + Tail(p, n, e) == before + [Read(e.frame)] + [Wrote(p.Acknowledged(n))];
    }
  }

  lemma EndingLeads(p: Process, before: seq<Event>, n: nat, e: Ending)
    requires Conversation(p, before) == Idle(n) && GoodEnding(p, n, e)
    ensures Conversation(p, before + Tail(p, n, e)) == EndPhase(n, e)
  {
    match e
    case Midway(x, k) => RoundLeads(p, before, n, x, k);
    case Turned(_, _, _) => TurnedLeads(p, before, n, e);
    case Shutdown(_, _) => ShutdownLeads(p, before, n, e);
  }

  /** Every trace of that form is a conversation. */
  lemma TracesConverse(p: Process, xs: seq<Exchange>, e: Ending)
    requires AllGood(p, xs) && GoodEnding(p, |xs|, e)
    ensures Conversation(p, Trace(p, xs, e)) == EndPhase(|xs|, e)
  {
    Opening(p);
    RoundsLead(p, xs, [Wrote(p.Handshake())]);
    EndingLeads(p, [Wrote(p.Handshake())] + Rounds(p, xs), |xs|, e);
  }

  lemma TraceExtends(p: Process, xs: seq<Exchange>, e: Ending, d: Ending, event: Event)
    requires Tail(p, |xs|, d) == Tail(p, |xs|, e) + [event]
    ensures Trace(p, xs, d) == Trace(p, xs, e) + [event]
  {
    var opening := [Wrote(p.Handshake())] + Rounds(p, xs);
    assert opening + (Tail(p, |xs|, e) + [event]) == opening + Tail(p, |xs|, e) + [event];
  }

  lemma RoundDone(p: Process, xs: seq<Exchange>, x: Exchange, event: Event)
    requires event == RoundEvents(p, |xs|, x)[5]
    ensures Trace(p, xs + [x], Midway(x, 0)) == Trace(p, xs, Midway(x, 5)) + [event]
  {
    var opening, round := [Wrote(p.Handshake())], RoundEvents(p, |xs|, x);
    RoundsAdd(p, xs, x, opening);
    TakeNext(round, 5);
    TakeAll(round);
    var before := opening + Rounds(p, xs);
    assert before + (round[..5] + [event]) == before + round[..5] + [event];
    assert Tail(p, |xs| + 1, Midway(x, 0)) == [];
    assert before + round + [] == before + round;
  }

  /** Where a frame may be written in a round, it is the next event of the round. */
  lemma WriteStep(p: Process, n: nat, x: Exchange, k: nat, event: Event)
    requires k < 6 && GoodUpTo(p, n, x, k) && event.Wrote? && Next(p, PhaseAt(n, x, k), event) != Broken
    ensures event == RoundEvents(p, n, x)[k] && GoodUpTo(p, n, x, k + 1)
  {
  }

  lemma ShutdownStep(p: Process, xs: seq<Exchange>, e: Ending, event: Event) returns (d: Ending)
    requires GoodEnding(p, |xs|, e) && e.Shutdown? && Next(p, EndPhase(|xs|, e), event) != Broken
    ensures GoodEnding(p, |xs|, d) && Trace(p, xs, d) == Trace(p, xs, e) + [event]
  {
    d := Shutdown(e.frame, true);
    assert Tail(p, |xs|, d) == Tail(p, |xs|, e) + [event];
    TraceExtends(p, xs, e, d, event);
  }

  lemma WrittenStep(p: Process, xs: seq<Exchange>, e: Ending, event: Event) returns (ys: seq<Exchange>, d: Ending)
    requires AllGood(p, xs) && e.Midway? && e.k < 6
    requires event == RoundEvents(p, |xs|, e.x)[e.k] && GoodUpTo(p, |xs|, e.x, e.k + 1)
    ensures AllGood(p, ys) && GoodEnding(p, |ys|, d) && Trace(p, ys, d) == Trace(p, xs, e) + [event]
  {
    if e.k == 5 {
      RoundDone(p, xs, e.x, event);
      RoundsAdd(p, xs, e.x, []);
      ys, d := xs + [e.x], Midway(e.x, 0);
    } else {
      ys, d := xs, Midway(e.x, e.k + 1);
      TakeNext(RoundEvents(p, |xs|, e.x), e.k);
      TraceExtends(p, xs, e, d, event);
    }
  }

  /** The next event of a conversation, as the next step of its trace. */
  lemma EndingStep(p: Process, xs: seq<Exchange>, e: Ending, event: Event) returns (ys: seq<Exchange>, d: Ending)
    requires AllGood(p, xs) && GoodEnding(p, |xs|, e) && Next(p, EndPhase(|xs|, e), event) != Broken
    ensures AllGood(p, ys) && GoodEnding(p, |ys|, d) && Trace(p, ys, d) == Trace(p, xs, e) + [event]
  {
    ys := xs;
    if e.Shutdown? {
      d := ShutdownStep(p, xs, e, event);
    } else if event.Wrote? {
      WriteStep(p, |xs|, e.x, e.k, event);
      ys, d := WrittenStep(p, xs, e, event);
    } else {
      d := ReadStep(p, |xs|, e.x, e.k, event.frame);
      TraceExtends(p, xs, e, d, event);
    }
  }

  lemma ReadStep(p: Process, n: nat, x: Exchange, k: nat, f: Frame) returns (d: Ending)
    requires (k == 0 || k == 2 || k == 4) && GoodUpTo(p, n, x, k)
    ensures GoodEnding(p, n, d) && Tail(p, n, d) == RoundEvents(p, n, x)[..k] + [Read(f)]
  {
    if !Acceptable(p, n, k, f) {
      return Turned(x, k, f);
    }
    if k == 0 && ValidShutdown(f, n) {
      d := Shutdown(f, false);
    } else {
      var y := if k == 0 then x.(request := f) else if k == 2 then x.(execute := f) else x.(publish := f);
      d := Midway(y, k + 1);
      assert RoundEvents(p, n, y)[..k + 1] == RoundEvents(p, n, x)[..k] + [Read(f)];
    }
  }

  lemma FirstTrace(p: Process, event: Event) returns (e: Ending)
    requires Conversation(p, [event]) != Broken
    ensures GoodEnding(p, 0, e) && [event] == Trace(p, [], e)
  {
    e := Midway(Exchange(map[], map[], map[]), 0);
    assert [event] == [] + [event];
    assert [event] == Trace(p, [], e);
  }

  /** A conversation that keeps the protocol is a handshake, complete rounds numbered 0, 1, 2, ...,
      and then part of a round, a refused frame or a shutdown. */
  lemma {:induction false} ConversationsTrace(p: Process, events: seq<Event>) returns (xs: seq<Exchange>, e: Ending)
    requires events != [] && Conversation(p, events) != Broken
    ensures AllGood(p, xs) && GoodEnding(p, |xs|, e) && events == Trace(p, xs, e)
    ensures Conversation(p, events) == EndPhase(|xs|, e)
    decreases |events|
  {
    var before, last := events[..|events| - 1], events[|events| - 1];
    assert events == before + [last];
    if before == [] {
      xs := [];
      e := FirstTrace(p, last);
      assert events == [last];
    } else {
      xs, e := ConversationsTrace(p, before);
      xs, e := EndingStep(p, xs, e, last);
    }
    TracesConverse(p, xs, e);
  }

  /** The events are the trace of some rounds and some ending. */
  ghost predicate IsTrace(p: Process, events: seq<Event>)
  {
    exists xs, e :: AllGood(p, xs) && GoodEnding(p, |xs|, e) && events == Trace(p, xs, e)
  }

  lemma KeepsToRounds(p: Process, events: seq<Event>)
    requires Conversation(p, events) != Starting
    ensures Conversation(p, events) != Broken <==> IsTrace(p, events)
  {
    if Conversation(p, events) != Broken {
      var xs, e := ConversationsTrace(p, events);
    }
    if IsTrace(p, events) {
      var xs, e :| AllGood(p, xs) && GoodEnding(p, |xs|, e) && events == Trace(p, xs, e);
      TracesConverse(p, xs, e);
    }
  }

  // ----- What comes before a response

  lemma EndsWith(events: seq<Event>, before: seq<Event>, round: seq<Event>)
    requires events == before + round + []
    ensures |events| == |before| + |round| && events[|before|..] == round
  {
  }

  /** Where a conversation is between two rounds, its last six events are a whole round. */
  lemma LastRound(p: Process, events: seq<Event>, n: nat) returns (x: Exchange)
    requires Conversation(p, events) == Idle(n + 1)
    ensures |events| > 6 && events[|events| - 6..] == RoundEvents(p, n, x) && GoodUpTo(p, n, x, 6)
  {
    var xs, e := ConversationsTrace(p, events);
    x := xs[n];
    var opening := [Wrote(p.Handshake())];
    RoundsLast(p, xs, opening);
    EndsWith(events, opening + Rounds(p, xs[..n]), RoundEvents(p, n, x));
  }

  /** No result without a publish: before the response numbered n come, in this order and with
      nothing between them, the request, prepared, execute, completed and publish frames of the
      same number, field by field as follows. Execute and publish name this process; completed,
      publish and response name one instance; and the result is that of the request. */
  lemma ResponseFollowsPublish(p: Process, events: seq<Event>, k: nat) returns (request: Value)
    requires Conversation(p, events) != Broken && k < |events| && IsResponse(events[k])
    ensures k > 5
    ensures var n, schema := Integer(Responses(events[..k])), String(ProtocolSchema);
      var pid, id := Integer(p.pid), String(Other(p.digest(Preimage(p.pid, n.number, n.number))));
      && events[k - 5] == Read(map[Schema := String(RequestSchema), Protocol := schema, Sequence := n,
                                   Request := request])
      && events[k - 4] == Wrote(map[Schema := String(PreparedSchema), Protocol := schema, Sequence := n, Pid := pid])
      && events[k - 3] == Read(map[Schema := String(ExecuteSchema), Protocol := schema, Sequence := n, Pid := pid])
      && events[k - 2] == Wrote(map[Schema := String(CompletedSchema), Protocol := schema, Sequence := n, Pid := pid,
                                    InstanceId := id])
      && events[k - 1] == Read(map[Schema := String(PublishSchema), Protocol := schema, Sequence := n, Pid := pid,
                                   InstanceId := id])
      && events[k] == Wrote(map[Schema := String(ResponseSchema), Protocol := schema, Sequence := n,
                                InstanceId := id, Outcome := p.compute(request)])
  {
    var n := Responses(events[..k]);
    ResponseNumbered(p, events, k);
    var before := events[..k + 1];
    var x := LastRound(p, before, n);
    var round := RoundEvents(p, n, x);
    forall i | 0 <= i < 6
      ensures events[k - 5 + i] == round[i]
    {
      assert before[k - 5..][i] == before[k - 5 + i];
    }
    RequestFrame(x.request, n);
    ExecuteFrame(x.execute, n, p.pid);
    PublishFrame(x.publish, n, p.pid, p.Instance(n));
    request := x.request[Request];
    assert events[k - 5] == round[0] && events[k - 4] == round[1] && events[k - 3] == round[2];
    assert events[k - 2] == round[3] && events[k - 1] == round[4] && events[k] == round[5];
  }

  /** A conversation that is closed ends with the shutdown of its number and its acknowledgement. */
  lemma {:induction false} ClosedByShutdown(p: Process, events: seq<Event>, n: nat)
    requires Conversation(p, events) == Closed(n)
    ensures |events| > 1
    ensures var k, schema := |events| - 1, String(ProtocolSchema);
      && events[k - 1] == Read(map[Schema := String(ShutdownSchema), Protocol := schema, Sequence := Integer(n)])
      && events[k] == Wrote(map[Schema := String(ShutdownAckSchema), Protocol := schema, Sequence := Integer(n),
                                Pid := Integer(p.pid)])
  {
    var before := events[..|events| - 1];
    assert Conversation(p, before) == Closing(n);
    ShutdownFrame(before[|before| - 1].frame, n);
  }

  /** Every conversation starts with a handshake that names protocol and process. */
  lemma {:induction false} StartsWithHandshake(p: Process, events: seq<Event>)
    requires events != [] && Conversation(p, events) != Broken
    ensures events[0].Wrote?
    ensures var f := events[0].frame;
      && Get(f, Schema) == Some(String(HandshakeSchema)) && Get(f, Protocol) == Some(String(ProtocolSchema))
      && Get(f, Pid) == Some(Integer(p.pid))
  {
    ConversationPrefix(p, events, 0);
    assert events[..0] == [];
  }

  /** The frames that may be read next: a shutdown or any request with the number of the round, and
      then just one execute and just one publish frame. */
  ghost predicate Awaited(p: Process, phase: Phase, f: Frame)
    requires Awaiting(phase)
  {
    var n, schema := Integer(phase.n), String(ProtocolSchema);
    var pid, id := Integer(p.pid), String(Other(p.Instance(phase.n)));
    match phase
    case Idle(_) =>
      || f == map[Schema := String(ShutdownSchema), Protocol := schema, Sequence := n]
      || exists v :: f == map[Schema := String(RequestSchema), Protocol := schema, Sequence := n, Request := v]
    case Ready(_, _) =>
      f == map[Schema := String(ExecuteSchema), Protocol := schema, Sequence := n, Pid := pid]
    case Finished(_, _) =>
      f == map[Schema := String(PublishSchema), Protocol := schema, Sequence := n, Pid := pid, InstanceId := id]
  }

  /** Every other frame is refused, and these are not. */
  lemma RefusedOtherwise(p: Process, phase: Phase, f: Frame)
    requires Awaiting(phase) && phase.n < U64 && p.pid < U64 && IsSha256(p.Instance(phase.n))
    ensures Next(p, phase, Read(f)) == Refused(phase.n) <==> !Awaited(p, phase, f)
  {
    ShutdownFrame(f, phase.n);
    RequestFrame(f, phase.n);
    ExecuteFrame(f, phase.n, p.pid);
    PublishFrame(f, phase.n, p.pid, p.Instance(phase.n));
    HexDigits(p.Instance(phase.n));
    if v :| f == map[Schema := String(RequestSchema), Protocol := String(ProtocolSchema),
                     Sequence := Integer(phase.n), Request := v] {
      assert f[Request] == v;
    }
  }

  // ----- The runner

  datatype Served = Continue | Stop | Failed

  class Runner {
    const process: Process
    /** Frames still to arrive; an unreadable one is `None`. */
    var inbox: seq<Option<Frame>>
    var log: seq<Event>

    constructor (process: Process, inbox: seq<Option<Frame>>)
      ensures this.process == process && this.inbox == inbox && log == []
    {
      this.process, this.inbox, this.log := process, inbox, [];
    }

    ghost function Now(): Phase
      reads this
    {
      Conversation(process, log)
    }

    /** All frames of the client, read or still to arrive. */
    ghost function Stream(): seq<Option<Frame>>
      reads this
    {
      Received(log) + inbox
    }

    /** Nothing readable is left. */
    predicate Silent()
      reads this
    {
      inbox == [] || inbox[0].None?
    }

    method ReadFrame() returns (frame: Option<Frame>)
      modifies this
      ensures Stream() == old(Stream())
      ensures frame.None? ==> Silent() && |inbox| == |old(inbox)| && Now() == old(Now())
      ensures frame.Some? ==> |inbox| < |old(inbox)| && Now() == Next(process, old(Now()), Read(frame.value))
    {
      if inbox == [] || inbox[0].None? {
        return None;
      }
      frame := inbox[0];
      ConversationStep(process, log, Read(frame.value));
      ReceivedStep(log, Read(frame.value));
      log := log + [Read(frame.value)];
      inbox := inbox[1..];
    }

    method WriteFrame(frame: Frame)
      modifies this`log
      ensures Stream() == old(Stream())
      ensures Now() == Next(process, old(Now()), Wrote(frame))
    {
      ConversationStep(process, log, Wrote(frame));
      ReceivedStep(log, Wrote(frame));
      log := log + [Wrote(frame)];
    }

    /** A round broke off where a frame was awaited: it was refused, or none came. */
    ghost predicate BrokenOff(n: nat)
      reads this
    {
      Now() == Refused(n) || (Awaiting(Now()) && Now().n == n && Silent())
    }

    /** The response leaves only after a publish that matches it. */
    method Release(n: nat, id: string, request: Value, result: Value) returns (served: Served)
      requires Now() == Finished(n, request)
      requires id == process.Instance(n) && result == process.compute(request)
      modifies this
      ensures Stream() == old(Stream()) && |inbox| <= |old(inbox)|
      ensures served != Stop
      ensures served == Continue ==> Now() == Idle(n + 1)
      ensures served == Failed ==> BrokenOff(n)
    {
      var publish := ReadFrame();
      if publish.None? {
        return Failed;
      }
      if !ValidPublish(publish.value, n, process.pid, id) {
        return Failed;
      }
      WriteFrame(process.Response(n, id, result));
      return Continue;
    }

    /** Prepare, wait for the word to execute, compute, and release the result. */
    method Answer(n: nat, counter: nat, request: Value) returns (served: Served)
      requires counter == n && Now() == Requested(n, request)
      modifies this
      ensures Stream() == old(Stream()) && |inbox| <= |old(inbox)|
      ensures served != Stop
      ensures served == Continue ==> Now() == Idle(n + 1)
      ensures served == Failed ==> BrokenOff(n)
    {
      WriteFrame(process.Prepared(n));
      var execute := ReadFrame();
      if execute.None? {
        return Failed;
      }
      if !ValidExecute(execute.value, n, process.pid) {
        return Failed;
      }
      var result := process.compute(request);
      var id := process.digest(Preimage(process.pid, counter, n));
      WriteFrame(process.Completed(n, id));
      served := Release(n, id, request, result);
    }

    /** One request, from its frame to its response, or a shutdown. */
    method Serve(expected: nat, counter: nat) returns (served: Served)
      requires counter == expected && Now() == Idle(expected)
      modifies this
      ensures Stream() == old(Stream()) && |inbox| <= |old(inbox)|
      ensures served == Continue ==> |inbox| < |old(inbox)| && Now() == Idle(expected + 1)
      ensures served == Stop ==> Now() == Closed(expected)
      ensures served == Failed ==> BrokenOff(expected)
    {
      var frame := ReadFrame();
      if frame.None? {
        return Failed;
      }
      if HasText(frame.value, Schema, ShutdownSchema) {
        if !ValidShutdown(frame.value, expected) {
          return Failed;
        }
        WriteFrame(process.Acknowledged(expected));
        return Stop;
      }
      if !ValidRequest(frame.value, expected) {
        return Failed;
      }
      served := Answer(expected, counter, frame.value[Request]);
    }

    /** A whole run keeps the protocol: it ends acknowledged, or refusing a frame, or starved of
        one, or after the last number of a round. */
    method Run() returns (stopped: bool)
      requires log == []
      modifies this
      ensures IsTrace(process, log) && Received(log) + inbox == old(inbox)
      ensures stopped ==> Now().Closed?
      ensures !stopped ==> Now().Refused? || (Awaiting(Now()) && Silent()) || Now() == Idle(U64)
    {
      WriteFrame(process.Handshake());
      var counter, expected := 0, 0;
      while true
        invariant counter == expected < U64
        invariant Now() == Idle(expected) && Stream() == old(inbox)
        decreases |inbox|
      {
        var served := Serve(expected, counter);
        KeepsToRounds(process, log);
        if served == Stop {
          return true;
        }
        if served == Failed {
          return false;
        }
        counter := counter + 1;
        if expected + 1 >= U64 {
          return false;
        }
        expected := expected + 1;
      }
    }
  }
}
