/**
 Batch consumption from the broker (internal/broker/jetstream.go): which messages leave the stream,
 and what happened to them before.
 */
module Broker {
  import opened Wrappers
  import opened Model

  /** A fetched message: decoded is None for a poison message, deliveries None when its metadata is missing. */
  datatype Message = Message(sequence: nat, decoded: Option<Observation>, deliveries: Option<nat>)

  /** The replies to each request about a message, Done where nothing is said. */
  datatype Plan = Plan(publish: map<nat, Reply>, terminate: map<nat, Reply>, nak: map<nat, Reply>, ack: Reply, sinkFails: bool)

  /** Whether terminating a message settles it alone, or everything up to it as an acknowledgement does. */
  datatype Termination = Single | UpTo

  datatype Settings = Settings(termination: Termination, maxDeliveries: nat)

  /** One shard: what can still be delivered, dead letters, batches the sink took, scheduled redeliveries. */
  datatype Shard = Shard(stream: set<nat>, dead: seq<Message>, received: seq<seq<Observation>>, naks: map<nat, int>)

  function ReplyTo(replies: map<nat, Reply>, sequence: nat): Reply {
    if sequence in replies then replies[sequence] else Done
  }

  function UpToSequence(stream: set<nat>, sequence: nat): set<nat> {
    set s | s in stream && s <= sequence
  }

  function Terminated(settings: Settings, stream: set<nat>, sequence: nat): set<nat> {
    if settings.termination.Single? then stream - {sequence} else stream - UpToSequence(stream, sequence)
  }

  // ----- Retry delays -----

  const FIVE_MINUTES: int := 300 * SECOND

  function Power(n: nat): (p: nat)
    ensures 0 < p
  {
    if n == 0 then 1 else 2 * Power(n - 1)
  }

  function RetryDelay(delivery: nat): int {
    var exponent := (if delivery == 0 then 1 else delivery) - 1;
    var delay := SECOND * Power(if exponent > 9 then 9 else exponent);
    if delay > FIVE_MINUTES then FIVE_MINUTES else delay
  }

  lemma {:induction false} PowerGrows(m: nat, n: nat)
    requires m <= n
    ensures Power(m) <= Power(n)
  {
    if m < n {
      PowerGrows(m, n - 1);
    }
  }

  /** Delays start at one second, double up to the ninth delivery, and stay at five minutes from the tenth on. */
  lemma RetryDelays(a: nat, b: nat)
    requires a <= b
    ensures 1_000_000_000 == RetryDelay(0) == RetryDelay(1) <= RetryDelay(a) <= RetryDelay(b) <= 300_000_000_000
    ensures RetryDelay(b) == 300_000_000_000 <==> 10 <= b
    ensures 1 <= b < 9 ==> RetryDelay(b + 1) == 2 * RetryDelay(b)
  {
    assert Power(8) == 256 && Power(9) == 512 by {
      assert Power(1) == 2 && Power(2) == 4 && Power(3) == 8 && Power(4) == 16;
      assert Power(5) == 32 && Power(6) == 64 && Power(7) == 128;
    }
    var low := (if a == 0 then 1 else a) - 1;
    var high := (if b == 0 then 1 else b) - 1;
    PowerGrows(0, low);
    PowerGrows(low, high);
    if high <= 8 {
      PowerGrows(high, 8);
    } else {
      PowerGrows(9, high);
    }
  }

  // ----- Specification -----

  /** After an attempt to move a message to the dead letters. */
  datatype Attempt = Attempt(shard: Shard, ok: bool)

  function Nakked(shard: Shard, plan: Plan, sequence: nat, delay: int): Attempt {
    match ReplyTo(plan.nak, sequence)
    case Done => Attempt(shard.(naks := shard.naks[sequence := delay]), true)
    case Unheard => Attempt(shard.(naks := shard.naks[sequence := delay]), false)
    case Failed => Attempt(shard, false)
  }

  function DeadLettered(settings: Settings, plan: Plan, shard: Shard, m: Message): Attempt {
    match ReplyTo(plan.publish, m.sequence)
    case Failed => Attempt(Nakked(shard, plan, m.sequence, 5 * SECOND).shard, false)
    case Unheard => Attempt(Nakked(shard.(dead := shard.dead + [m]), plan, m.sequence, 5 * SECOND).shard, false)
    case Done =>
      var copied := shard.(dead := shard.dead + [m]);
      var gone := copied.(stream := Terminated(settings, copied.stream, m.sequence));
      match ReplyTo(plan.terminate, m.sequence)
      case Done => Attempt(gone, true)
      case Unheard => Attempt(gone, false)
      case Failed => Attempt(copied, false)
  }

  function Valid(messages: seq<Message>): seq<Message> {
    if messages == [] then []
    else
      var before, last := Valid(messages[..|messages| - 1]), messages[|messages| - 1];
      if last.decoded.Some? then before + [last] else before
  }

  function Decoded(messages: seq<Message>): seq<Observation> {
    if messages == [] then []
    else
      var before, last := Decoded(messages[..|messages| - 1]), messages[|messages| - 1];
      if last.decoded.Some? then before + [last.decoded.value] else before
  }

  predicate Exhausted(settings: Settings, m: Message) {
    m.deliveries.Some? && m.deliveries.value >= settings.maxDeliveries
  }

  /** The two loops over messages: sifting poison out of a batch, and handling a batch the sink refused. */
  datatype Pass = Sift | Refuse

  /** The messages a pass moves to the dead letters. */
  predicate Condemns(settings: Settings, pass: Pass, m: Message) {
    match pass
    case Sift => m.decoded.None?
    case Refuse => Exhausted(settings, m)
  }

  function Handled(settings: Settings, plan: Plan, pass: Pass, shard: Shard, m: Message): Attempt {
    if Condemns(settings, pass, m) then DeadLettered(settings, plan, shard, m)
    else if pass.Refuse? then Nakked(shard, plan, m.sequence, RetryDelay(m.deliveries.GetOr(1)))
    else Attempt(shard, true)
  }

  /** A pass stops at the first message it cannot settle. */
  function Passed(settings: Settings, plan: Plan, pass: Pass, shard: Shard, messages: seq<Message>): Attempt {
    if messages == [] then Attempt(shard, true)
    else
      var before := Passed(settings, plan, pass, shard, messages[..|messages| - 1]);
      if !before.ok then before else Handled(settings, plan, pass, before.shard, messages[|messages| - 1])
  }

  /** The whole batch; ok when the source returns no error. */
  function Consumed(settings: Settings, plan: Plan, shard: Shard, messages: seq<Message>): Attempt {
    var sifted := Passed(settings, plan, Sift, shard, messages);
    var valid := Valid(messages);
    if !sifted.ok || valid == [] then sifted
    else if plan.sinkFails then Attempt(Passed(settings, plan, Refuse, sifted.shard, valid).shard, false)
    else
      var taken := sifted.shard.(received := sifted.shard.received + [Decoded(messages)]);
      var acked := taken.(stream := taken.stream - UpToSequence(taken.stream, valid[|valid| - 1].sequence));
      match plan.ack
      case Done => Attempt(acked, true)
      case Unheard => Attempt(acked, false)
      case Failed => Attempt(taken, false)
  }

  // ----- The consumer -----

  class Consumer {
    const settings: Settings
    var shard: Shard

    constructor (settings: Settings, shard: Shard)
      ensures this.settings == settings && this.shard == shard
    {
      this.settings, this.shard := settings, shard;
    }

    method ConsumeBatch(plan: Plan, messages: seq<Message>) returns (ok: bool)
      modifies this
      ensures Attempt(shard, ok) == Consumed(settings, plan, old(shard), messages)
    {
      var observations, validMessages := [], [];
      for i := 0 to |messages|
        invariant Attempt(shard, true) == Passed(settings, plan, Sift, old(shard), messages[..i])
        invariant validMessages == Valid(messages[..i]) && observations == Decoded(messages[..i])
      {
        assert messages[..i + 1][..i] == messages[..i];
        match messages[i].decoded {
          case None =>
            var moved := DeadLetter(plan, messages[i]);
            if !moved {
              FailureStops(settings, plan, Sift, old(shard), messages, i + 1);
              return false;
            }
          case Some(observation) =>
            observations, validMessages := observations + [observation], validMessages + [messages[i]];
        }
      }
      assert messages[..|messages|] == messages;
      if |validMessages| == 0 {
        return true;
      }
      var taken := Ingest(plan, observations);
      if !taken {
        Reject(plan, validMessages);
        return false;
      }
      ok := Acknowledge(plan, validMessages[|validMessages| - 1]);
    }

    /** The sink takes the whole batch or refuses it. */
    method Ingest(plan: Plan, observations: seq<Observation>) returns (taken: bool)
      modifies this
      ensures taken == !plan.sinkFails
      ensures shard == if taken then old(shard).(received := old(shard).received + [observations]) else old(shard)
    {
      taken := !plan.sinkFails;
      if taken {
        shard := shard.(received := shard.received + [observations]);
      }
    }

    /** Dead letters for exhausted messages, a delayed redelivery for the others, until a request fails. */
    method Reject(plan: Plan, messages: seq<Message>)
      modifies this
      ensures shard == Passed(settings, plan, Refuse, old(shard), messages).shard
    {
      for i := 0 to |messages|
        invariant Attempt(shard, true) == Passed(settings, plan, Refuse, old(shard), messages[..i])
      {
        assert messages[..i + 1][..i] == messages[..i];
        var m := messages[i];
        var settled;
        if m.deliveries.Some? && m.deliveries.value >= settings.maxDeliveries {
          settled := DeadLetter(plan, m);
        } else {
          var delivery := 1;
          if m.deliveries.Some? {
            delivery := m.deliveries.value;
          }
          settled := Nak(plan, m.sequence, RetryDelay(delivery));
        }
        if !settled {
          FailureStops(settings, plan, Refuse, old(shard), messages, i + 1);
          return;
        }
      }
      assert messages[..|messages|] == messages;
    }

    method DeadLetter(plan: Plan, m: Message) returns (moved: bool)
      modifies this
      ensures Attempt(shard, moved) == DeadLettered(settings, plan, old(shard), m)
    {
      var published := ReplyTo(plan.publish, m.sequence);
      if !published.Failed? {
        shard := shard.(dead := shard.dead + [m]);
      }
      if !published.Done? {
        var scheduled := Nak(plan, m.sequence, 5 * SECOND);
        return false;
      }
      var terminated := ReplyTo(plan.terminate, m.sequence);
      if !terminated.Failed? {
        shard := shard.(stream := Terminated(settings, shard.stream, m.sequence));
      }
      return terminated.Done?;
    }

    method Nak(plan: Plan, sequence: nat, delay: int) returns (scheduled: bool)
      modifies this
      ensures Attempt(shard, scheduled) == Nakked(old(shard), plan, sequence, delay)
    {
      var reply := ReplyTo(plan.nak, sequence);
      if !reply.Failed? {
        shard := shard.(naks := shard.naks[sequence := delay]);
      }
      return reply.Done?;
    }

    /** An acknowledgement settles everything up to its message. */
    method Acknowledge(plan: Plan, m: Message) returns (heard: bool)
      modifies this
      ensures heard == plan.ack.Done?
      ensures shard == if plan.ack.Failed? then old(shard)
                       else old(shard).(stream := old(shard).stream - UpToSequence(old(shard).stream, m.sequence))
    {
      if !plan.ack.Failed? {
        shard := shard.(stream := shard.stream - UpToSequence(shard.stream, m.sequence));
      }
      return plan.ack.Done?;
    }
  }

  lemma {:induction false} FailureStops(settings: Settings, plan: Plan, pass: Pass, shard: Shard, messages: seq<Message>, i: nat)
    requires i <= |messages| && !Passed(settings, plan, pass, shard, messages[..i]).ok
    ensures Passed(settings, plan, pass, shard, messages) == Passed(settings, plan, pass, shard, messages[..i])
    decreases |messages|
  {
    if i < |messages| {
      var front := messages[..|messages| - 1];
      assert front[..i] == messages[..i];
      FailureStops(settings, plan, pass, shard, front, i);
    } else {
      assert messages[..i] == messages;
    }
  }

  // ----- Which messages leave, which are copied -----

  predicate Copied(dead: seq<Message>, sequence: nat) {
    exists i :: 0 <= i < |dead| && dead[i].sequence == sequence
  }

  /** What the requests about one message come to. */
  predicate IsCopied(plan: Plan, m: Message) {
    !ReplyTo(plan.publish, m.sequence).Failed?
  }

  predicate IsEnded(plan: Plan, m: Message) {
    ReplyTo(plan.publish, m.sequence).Done? && !ReplyTo(plan.terminate, m.sequence).Failed?
  }

  predicate IsSettled(settings: Settings, plan: Plan, pass: Pass, m: Message) {
    if Condemns(settings, pass, m) then ReplyTo(plan.publish, m.sequence).Done? && ReplyTo(plan.terminate, m.sequence).Done?
    else pass.Refuse? ==> ReplyTo(plan.nak, m.sequence).Done?
  }

  predicate AllSettled(settings: Settings, plan: Plan, pass: Pass, messages: seq<Message>) {
    forall i :: 0 <= i < |messages| ==> IsSettled(settings, plan, pass, messages[i])
  }

  /** The pass gets to the i-th message and moves it to the dead letters. */
  predicate Condemned(settings: Settings, plan: Plan, pass: Pass, messages: seq<Message>, i: nat)
    requires i < |messages|
  {
    Condemns(settings, pass, messages[i]) && AllSettled(settings, plan, pass, messages[..i])
  }

  /** Settling one message by termination settles another. */
  predicate Covers(settings: Settings, terminated: nat, sequence: nat) {
    if settings.termination.Single? then terminated == sequence else sequence <= terminated
  }

  /** Some termination of the pass that takes effect covers the sequence. */
  predicate Ends(settings: Settings, plan: Plan, pass: Pass, messages: seq<Message>, sequence: nat) {
    exists i :: 0 <= i < |messages| && Condemned(settings, plan, pass, messages, i)
                && IsEnded(plan, messages[i]) && Covers(settings, messages[i].sequence, sequence)
  }

  /** The pass publishes a copy of a message with the sequence. */
  predicate Copies(settings: Settings, plan: Plan, pass: Pass, messages: seq<Message>, sequence: nat) {
    exists i :: 0 <= i < |messages| && Condemned(settings, plan, pass, messages, i)
                && IsCopied(plan, messages[i]) && messages[i].sequence == sequence
  }

  lemma {:induction false} CondemnedBefore(settings: Settings, plan: Plan, pass: Pass, messages: seq<Message>, i: nat)
    requires i < |messages| - 1
    ensures Condemned(settings, plan, pass, messages, i) == Condemned(settings, plan, pass, messages[..|messages| - 1], i)
  {
    assert messages[..|messages| - 1][..i] == messages[..i];
  }

  lemma {:induction false} EndsSnoc(settings: Settings, plan: Plan, pass: Pass, messages: seq<Message>, s: nat)
    requires messages != []
    ensures var front, last := messages[..|messages| - 1], messages[|messages| - 1];
            var reached := AllSettled(settings, plan, pass, front) && Condemns(settings, pass, last);
            && (Ends(settings, plan, pass, messages, s)
                <==> Ends(settings, plan, pass, front, s)
                     || (reached && IsEnded(plan, last) && Covers(settings, last.sequence, s)))
            && (Copies(settings, plan, pass, messages, s)
                <==> Copies(settings, plan, pass, front, s) || (reached && IsCopied(plan, last) && last.sequence == s))
  {
    var front, n := messages[..|messages| - 1], |messages| - 1;
    forall i | 0 <= i < n
      ensures Condemned(settings, plan, pass, messages, i) == Condemned(settings, plan, pass, front, i)
    {
      CondemnedBefore(settings, plan, pass, messages, i);
    }
    if Ends(settings, plan, pass, front, s) {
      var i :| 0 <= i < n && Condemned(settings, plan, pass, front, i) && IsEnded(plan, front[i])
               && Covers(settings, front[i].sequence, s);
      assert messages[i] == front[i] && Condemned(settings, plan, pass, messages, i);
    }
    if Copies(settings, plan, pass, front, s) {
      var i :| 0 <= i < n && Condemned(settings, plan, pass, front, i) && IsCopied(plan, front[i]) && front[i].sequence == s;
      assert messages[i] == front[i] && Condemned(settings, plan, pass, messages, i);
    }
    assert Condemned(settings, plan, pass, messages, n)
           <==> AllSettled(settings, plan, pass, front) && Condemns(settings, pass, messages[n]);
  }

  /** A pass, for every combination of replies: when it gets through, what it ends and what it copies. */
  lemma {:induction false} PassedExactly(settings: Settings, plan: Plan, pass: Pass, shard: Shard, messages: seq<Message>, s: nat)
    ensures var after := Passed(settings, plan, pass, shard, messages);
            && (after.ok <==> AllSettled(settings, plan, pass, messages))
            && after.shard.received == shard.received && shard.dead <= after.shard.dead && after.shard.stream <= shard.stream
            && (s in shard.stream ==> (s in after.shard.stream <==> !Ends(settings, plan, pass, messages, s)))
            && (Copied(after.shard.dead[|shard.dead|..], s) <==> Copies(settings, plan, pass, messages, s))
  {
    if messages != [] {
      var front, last := messages[..|messages| - 1], messages[|messages| - 1];
      var before := Passed(settings, plan, pass, shard, front);
      PassedExactly(settings, plan, pass, shard, front, s);
      EndsSnoc(settings, plan, pass, messages, s);
      assert AllSettled(settings, plan, pass, messages)
             <==> AllSettled(settings, plan, pass, front) && IsSettled(settings, plan, pass, last);
      if before.ok {
        HandledExactly(settings, plan, pass, before.shard, last, s);
        var after := Handled(settings, plan, pass, before.shard, last).shard;
        CopiesAdd(shard.dead, before.shard.dead, after.dead, s);
      }
    }
  }

  lemma {:induction false} HandledExactly(settings: Settings, plan: Plan, pass: Pass, shard: Shard, m: Message, s: nat)
    ensures var after := Handled(settings, plan, pass, shard, m);
            var condemned := Condemns(settings, pass, m);
            && (after.ok <==> IsSettled(settings, plan, pass, m))
            && after.shard.received == shard.received && shard.dead <= after.shard.dead && after.shard.stream <= shard.stream
            && (s in shard.stream ==>
                  (s in after.shard.stream <==> !(condemned && IsEnded(plan, m) && Covers(settings, m.sequence, s))))
            && (Copied(after.shard.dead[|shard.dead|..], s) <==> condemned && IsCopied(plan, m) && m.sequence == s)
  {
    var after := Handled(settings, plan, pass, shard, m).shard;
    if Condemns(settings, pass, m) && IsCopied(plan, m) {
      assert after.dead[|shard.dead|..] == [m];
      assert [m][0] == m;
    } else {
      assert after.dead[|shard.dead|..] == [];
    }
  }

  lemma {:induction false} CopiesAdd(a: seq<Message>, b: seq<Message>, c: seq<Message>, s: nat)
    requires a <= b <= c
    ensures Copied(c[|a|..], s) <==> Copied(b[|a|..], s) || Copied(c[|b|..], s)
  {
    var whole, first, second := c[|a|..], b[|a|..], c[|b|..];
    assert whole == first + second;
    if Copied(first, s) {
      var i :| 0 <= i < |first| && first[i].sequence == s;
      assert whole[i].sequence == s;
    }
    if Copied(second, s) {
      var i :| 0 <= i < |second| && second[i].sequence == s;
      assert whole[|first| + i].sequence == s;
    }
  }

  // ----- Whole batches -----

  predicate SinkTakes(settings: Settings, plan: Plan, messages: seq<Message>) {
    AllSettled(settings, plan, Sift, messages) && Valid(messages) != [] && !plan.sinkFails
  }

  predicate SinkRefuses(settings: Settings, plan: Plan, messages: seq<Message>) {
    AllSettled(settings, plan, Sift, messages) && Valid(messages) != [] && plan.sinkFails
  }

  /** A termination of either pass covers the sequence. */
  predicate BatchEnds(settings: Settings, plan: Plan, messages: seq<Message>, s: nat) {
    || Ends(settings, plan, Sift, messages, s)
    || (SinkRefuses(settings, plan, messages) && Ends(settings, plan, Refuse, Valid(messages), s))
  }

  predicate BatchCopies(settings: Settings, plan: Plan, messages: seq<Message>, s: nat) {
    || Copies(settings, plan, Sift, messages, s)
    || (SinkRefuses(settings, plan, messages) && Copies(settings, plan, Refuse, Valid(messages), s))
  }

  /** The acknowledgement takes effect and covers the sequence. */
  predicate BatchAcknowledges(settings: Settings, plan: Plan, messages: seq<Message>, s: nat) {
    SinkTakes(settings, plan, messages) && !plan.ack.Failed? && s <= Valid(messages)[|Valid(messages)| - 1].sequence
  }

  /**
   For every combination of replies and either kind of termination: exactly which messages leave the
   stream, which are copied, and what the sink receives.
   */
  lemma {:induction false} ConsumedExactly(settings: Settings, plan: Plan, shard: Shard, messages: seq<Message>, s: nat)
    requires s in shard.stream
    ensures var after := Consumed(settings, plan, shard, messages).shard;
            && (s !in after.stream
                <==> BatchEnds(settings, plan, messages, s) || BatchAcknowledges(settings, plan, messages, s))
            && after.received == shard.received + (if SinkTakes(settings, plan, messages) then [Decoded(messages)] else [])
            && shard.dead <= after.dead
            && (Copied(after.dead[|shard.dead|..], s) <==> BatchCopies(settings, plan, messages, s))
  {
    var sifted := Passed(settings, plan, Sift, shard, messages).shard;
    PassedExactly(settings, plan, Sift, shard, messages, s);
    if SinkRefuses(settings, plan, messages) {
      PassedExactly(settings, plan, Refuse, sifted, Valid(messages), s);
      CopiesAdd(shard.dead, sifted.dead, Passed(settings, plan, Refuse, sifted, Valid(messages)).shard.dead, s);
    }
  }

  predicate InBatch(messages: seq<Message>, sequence: nat) {
    exists i :: 0 <= i < |messages| && messages[i].sequence == sequence
  }

  // ----- Batches without error -----

  /** What a batch that returns no error settles: up to its last decoded message, and what its poison messages cover. */
  predicate SettledBy(settings: Settings, messages: seq<Message>, s: nat) {
    || (Valid(messages) != [] && s <= Valid(messages)[|Valid(messages)| - 1].sequence)
    || exists i :: 0 <= i < |messages| && messages[i].decoded.None? && Covers(settings, messages[i].sequence, s)
  }

  /** A batch without error removes exactly what it settles, and reaches the sink once if anything was decoded. */
  lemma {:induction false} SuccessSettlesExactly(settings: Settings, plan: Plan, shard: Shard, messages: seq<Message>, s: nat)
    requires s in shard.stream && Consumed(settings, plan, shard, messages).ok
    ensures var after := Consumed(settings, plan, shard, messages).shard;
            && (s !in after.stream <==> SettledBy(settings, messages, s))
            && after.received == shard.received + if Valid(messages) == [] then [] else [Decoded(messages)]
  {
    ConsumedExactly(settings, plan, shard, messages, s);
    PassedExactly(settings, plan, Sift, shard, messages, s);
    forall i | 0 <= i < |messages| && messages[i].decoded.None?
      ensures Condemned(settings, plan, Sift, messages, i) && IsEnded(plan, messages[i])
    {
      assert IsSettled(settings, plan, Sift, messages[i]);
    }
    assert Ends(settings, plan, Sift, messages, s)
           <==> exists i :: 0 <= i < |messages| && messages[i].decoded.None? && Covers(settings, messages[i].sequence, s);
  }

  /** ... so that nothing of a batch in stream order is left. */
  lemma {:induction false} SuccessSettlesTheBatch(settings: Settings, plan: Plan, shard: Shard, messages: seq<Message>)
    requires Consumed(settings, plan, shard, messages).ok && Increasing(messages)
    ensures var after := Consumed(settings, plan, shard, messages).shard;
            && (forall i :: 0 <= i < |messages| ==> messages[i].sequence !in after.stream)
            && after.received == shard.received + if Valid(messages) == [] then [] else [Decoded(messages)]
  {
    PassedExactly(settings, plan, Sift, shard, messages, 0);
    forall i | 0 <= i < |messages|
      ensures messages[i].sequence !in Consumed(settings, plan, shard, messages).shard.stream
    {
      if messages[i].sequence in shard.stream {
        SuccessSettlesExactly(settings, plan, shard, messages, messages[i].sequence);
        if messages[i].decoded.Some? {
          LastValidIsLast(messages, i);
        } else {
          assert Covers(settings, messages[i].sequence, messages[i].sequence);
        }
      } else {
        PassedExactly(settings, plan, Sift, shard, messages, messages[i].sequence);
      }
    }
  }

  lemma {:induction false} LastValidIsLast(messages: seq<Message>, i: nat)
    requires i < |messages| && messages[i].decoded.Some? && Increasing(messages)
    ensures Valid(messages) != [] && messages[i].sequence <= Valid(messages)[|Valid(messages)| - 1].sequence
  {
    if i < |messages| - 1 {
      LastValidIsLast(messages[..|messages| - 1], i);
    }
  }

  // ----- When the sink refuses -----

  /** Every request is answered. */
  predicate Reliable(plan: Plan) {
    plan.publish == map[] && plan.terminate == map[] && plan.nak == map[]
  }

  /** It has been delivered as often as it may. */
  predicate OutOfDeliveries(settings: Settings, m: Message) {
    m.deliveries.Some? && settings.maxDeliveries <= m.deliveries.value
  }

  /** A message at or behind the sequence is moved to the dead letters when the sink refuses. */
  predicate CondemnedFrom(settings: Settings, messages: seq<Message>, sequence: nat) {
    exists i :: 0 <= i < |messages| && sequence <= messages[i].sequence
                && (messages[i].decoded.None? || OutOfDeliveries(settings, messages[i]))
  }

  predicate Increasing(messages: seq<Message>) {
    forall i, j :: 0 <= i < j < |messages| ==> messages[i].sequence < messages[j].sequence
  }

  /**
   A decoded message of a refused batch stays deliverable exactly when, with single termination, it is
   not exhausted itself, and otherwise no poison or exhausted message of the batch is at or behind it.
   */
  lemma {:induction false} RefusedMessagesStayExactly(settings: Settings, plan: Plan, shard: Shard, messages: seq<Message>, k: nat)
    requires Reliable(plan) && plan.sinkFails && Increasing(messages)
    requires k < |messages| && messages[k].decoded.Some? && messages[k].sequence in shard.stream
    ensures messages[k].sequence in Consumed(settings, plan, shard, messages).shard.stream
            <==> if settings.termination.Single? then !OutOfDeliveries(settings, messages[k])
                 else !CondemnedFrom(settings, messages, messages[k].sequence)
  {
    var s, valid := messages[k].sequence, Valid(messages);
    ConsumedExactly(settings, plan, shard, messages, s);
    ValidExactly(messages);
    assert messages[k] in valid;
    ReliableEnds(settings, plan, Sift, messages, s);
    ReliableEnds(settings, plan, Refuse, valid, s);
    assert SinkRefuses(settings, plan, messages);
    if settings.termination.Single? {
      forall m | m in messages && m.sequence == s ensures m == messages[k] {
      }
    } else if CondemnedFrom(settings, messages, s) {
      var i :| 0 <= i < |messages| && s <= messages[i].sequence
               && (messages[i].decoded.None? || OutOfDeliveries(settings, messages[i]));
      assert messages[i].decoded.Some? ==> messages[i] in valid;
    }
  }

  /** What one message of a pass schedules. */
  lemma {:induction false} OneSchedules(settings: Settings, plan: Plan, pass: Pass, shard: Shard, m: Message, s: nat)
    requires Reliable(plan)
    ensures var after := Handled(settings, plan, pass, shard, m);
            && after.ok
            && if m.sequence == s && pass.Refuse? && !OutOfDeliveries(settings, m)
               then s in after.shard.naks && after.shard.naks[s] == RetryDelay(m.deliveries.GetOr(1))
               else (s in after.shard.naks <==> s in shard.naks) && (s in shard.naks ==> after.shard.naks[s] == shard.naks[s])
  {
  }

  /** No message of the pass schedules s. */
  lemma {:induction false} OthersScheduleNothing(settings: Settings, plan: Plan, pass: Pass, shard: Shard, messages: seq<Message>, s: nat)
    requires Reliable(plan)
    requires forall i :: 0 <= i < |messages| && messages[i].sequence == s ==> pass.Sift? || OutOfDeliveries(settings, messages[i])
    ensures var after := Passed(settings, plan, pass, shard, messages);
            after.ok && (s in after.shard.naks <==> s in shard.naks) && (s in shard.naks ==> after.shard.naks[s] == shard.naks[s])
  {
    if messages != [] {
      var n := |messages| - 1;
      OthersScheduleNothing(settings, plan, pass, shard, messages[..n], s);
      OneSchedules(settings, plan, pass, Passed(settings, plan, pass, shard, messages[..n]).shard, messages[n], s);
    }
  }

  lemma {:induction false} RefusalSchedules(settings: Settings, plan: Plan, shard: Shard, messages: seq<Message>, k: nat)
    requires Reliable(plan) && Increasing(messages) && k < |messages| && !OutOfDeliveries(settings, messages[k])
    ensures var after := Passed(settings, plan, Refuse, shard, messages);
            var s := messages[k].sequence;
            after.ok && s in after.shard.naks && after.shard.naks[s] == RetryDelay(messages[k].deliveries.GetOr(1))
  {
    var n := |messages| - 1;
    if k < n {
      RefusalSchedules(settings, plan, shard, messages[..n], k);
    } else {
      OthersScheduleNothing(settings, plan, Refuse, shard, messages[..n], messages[n].sequence);
    }
    OneSchedules(settings, plan, Refuse, Passed(settings, plan, Refuse, shard, messages[..n]).shard, messages[n], messages[k].sequence);
  }

  lemma {:induction false} ValidKeepsOrder(messages: seq<Message>, k: nat) returns (i: nat)
    requires Increasing(messages) && k < |messages| && messages[k].decoded.Some?
    ensures i < |Valid(messages)| && Valid(messages)[i] == messages[k] && Increasing(Valid(messages))
  {
    ValidExactly(messages);
    ValidIncreases(messages);
    assert messages[k] in Valid(messages);
    i :| 0 <= i < |Valid(messages)| && Valid(messages)[i] == messages[k];
  }

  lemma {:induction false} ValidIncreases(messages: seq<Message>)
    requires Increasing(messages)
    ensures Increasing(Valid(messages))
  {
    if messages != [] {
      var front := messages[..|messages| - 1];
      ValidIncreases(front);
      ValidExactly(front);
      assert forall m :: m in front ==> m.sequence < messages[|messages| - 1].sequence;
      assert forall i :: 0 <= i < |Valid(front)| ==> Valid(front)[i] in front;
    }
  }

  /**
   When the sink refuses and every request is answered, each decoded message that has deliveries left is
   handed out again after the delay of its delivery; nothing is scheduled for any other message.
   */
  lemma {:induction false} RefusalSchedulesExactly(settings: Settings, plan: Plan, shard: Shard, messages: seq<Message>, k: nat)
    requires Reliable(plan) && plan.sinkFails && Increasing(messages) && k < |messages|
    ensures var after, s := Consumed(settings, plan, shard, messages).shard.naks, messages[k].sequence;
            if messages[k].decoded.Some? && !OutOfDeliveries(settings, messages[k])
            then s in after && after[s] == RetryDelay(if messages[k].deliveries.Some? then messages[k].deliveries.value else 1)
            else (s in after <==> s in shard.naks) && (s in after ==> after[s] == shard.naks[s])
  {
    var s, valid := messages[k].sequence, Valid(messages);
    OthersScheduleNothing(settings, plan, Sift, shard, messages, s);
    var sifted := Passed(settings, plan, Sift, shard, messages).shard;
    if messages[k].decoded.Some? && !OutOfDeliveries(settings, messages[k]) {
      var i := ValidKeepsOrder(messages, k);
      RefusalSchedules(settings, plan, sifted, valid, i);
    } else {
      ValidExactly(messages);
      forall i | 0 <= i < |valid| && valid[i].sequence == s ensures OutOfDeliveries(settings, valid[i]) {
        assert valid[i] in valid;
      }
      OthersScheduleNothing(settings, plan, Refuse, sifted, valid, s);
    }
  }

  /** A poison message whose copy is not confirmed ends its batch and is handed out again after five seconds. */
  lemma {:induction false} UnconfirmedCopySchedules(settings: Settings, plan: Plan, shard: Shard, messages: seq<Message>)
    requires messages != [] && messages[0].decoded.None?
    requires !ReplyTo(plan.publish, messages[0].sequence).Done? && !ReplyTo(plan.nak, messages[0].sequence).Failed?
    ensures var after := Consumed(settings, plan, shard, messages);
            !after.ok && after.shard.stream == shard.stream && after.shard.received == shard.received
            && after.shard.naks == shard.naks[messages[0].sequence := 5_000_000_000]
  {
    assert messages[..1][..0] == [];
    assert Passed(settings, plan, Sift, shard, messages[..1][..0]) == Attempt(shard, true);
    FailureStops(settings, plan, Sift, shard, messages, 1);
  }

  /** The sink is handed the decoded observations of the messages in their order, one of each. */
  lemma {:induction false} DecodedInOrder(messages: seq<Message>)
    ensures |Decoded(messages)| == |Valid(messages)|
    ensures forall i :: 0 <= i < |Decoded(messages)| ==> Valid(messages)[i].decoded == Some(Decoded(messages)[i])
    ensures Increasing(messages) ==> Increasing(Valid(messages))
    ensures forall m :: m in Valid(messages) <==> m in messages && m.decoded.Some?
  {
    ValidExactly(messages);
    if messages != [] {
      DecodedInOrder(messages[..|messages| - 1]);
    }
    if Increasing(messages) {
      ValidIncreases(messages);
    }
  }

  /** When every request is answered a pass gets to every message. */
  lemma {:induction false} ReliableEnds(settings: Settings, plan: Plan, pass: Pass, messages: seq<Message>, s: nat)
    requires Reliable(plan)
    ensures AllSettled(settings, plan, pass, messages)
    ensures Ends(settings, plan, pass, messages, s)
            <==> exists m :: m in messages && Condemns(settings, pass, m) && Covers(settings, m.sequence, s)
  {
    if m :| m in messages && Condemns(settings, pass, m) && Covers(settings, m.sequence, s) {
      var i :| 0 <= i < |messages| && messages[i] == m;
      assert Condemned(settings, plan, pass, messages, i) && IsEnded(plan, messages[i]);
    }
    if Ends(settings, plan, pass, messages, s) {
      var i :| 0 <= i < |messages| && Condemned(settings, plan, pass, messages, i)
               && IsEnded(plan, messages[i]) && Covers(settings, messages[i].sequence, s);
      assert messages[i] in messages;
    }
  }

  lemma {:induction false} ValidExactly(messages: seq<Message>)
    ensures forall m :: m in Valid(messages) <==> m in messages && m.decoded.Some?
  {
    if messages != [] {
      ValidExactly(messages[..|messages| - 1]);
      assert messages == messages[..|messages| - 1] + [messages[|messages| - 1]];
    }
  }
}
