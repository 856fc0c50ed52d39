/**
 What consuming batches can lose (internal/broker/jetstream.go): inputs that leave the stream without
 a copy and without ever having been handed to the sink, in one batch and over whole runs.
 */
module Losses {
  import opened Wrappers
  import opened Model
  import opened Broker

  // ----- One batch -----

  predicate DecodedIn(messages: seq<Message>, s: nat) {
    exists i :: 0 <= i < |messages| && messages[i].decoded.Some? && messages[i].sequence == s
  }

  /** The sink took a batch with the message. */
  predicate Handed(settings: Settings, plan: Plan, messages: seq<Message>, s: nat) {
    SinkTakes(settings, plan, messages) && DecodedIn(messages, s)
  }

  /** It left the stream, was not copied, and is not among what the sink received. */
  predicate Lost(before: Shard, after: Shard, messages: seq<Message>, s: nat)
    requires before.dead <= after.dead
  {
    && s in before.stream && s !in after.stream && !Copied(after.dead[|before.dead|..], s)
    && !(after.received == before.received + [Decoded(messages)] && DecodedIn(messages, s))
  }

  /** A termination of a later message took effect. */
  ghost predicate LaterEnds(settings: Settings, plan: Plan, messages: seq<Message>, s: nat) {
    exists t: nat :: s < t && TerminatedAt(settings, plan, messages, t)
  }

  predicate TerminatedAt(settings: Settings, plan: Plan, messages: seq<Message>, t: nat) {
    || EndsAt(settings, plan, Sift, messages, t)
    || (SinkRefuses(settings, plan, messages) && EndsAt(settings, plan, Refuse, Valid(messages), t))
  }

  predicate EndsAt(settings: Settings, plan: Plan, pass: Pass, messages: seq<Message>, t: nat) {
    exists i :: 0 <= i < |messages| && Condemned(settings, plan, pass, messages, i)
                && IsEnded(plan, messages[i]) && messages[i].sequence == t
  }

  lemma {:induction false} EndsByWhom(settings: Settings, plan: Plan, pass: Pass, messages: seq<Message>, s: nat)
    ensures Ends(settings, plan, pass, messages, s)
            <==> EndsAt(settings, plan, pass, messages, s)
                 || (settings.termination.UpTo? && exists t: nat :: s < t && EndsAt(settings, plan, pass, messages, t))
    ensures EndsAt(settings, plan, pass, messages, s) ==> Copies(settings, plan, pass, messages, s)
  {
    if Ends(settings, plan, pass, messages, s) {
      var i :| 0 <= i < |messages| && Condemned(settings, plan, pass, messages, i)
               && IsEnded(plan, messages[i]) && Covers(settings, messages[i].sequence, s);
      assert EndsAt(settings, plan, pass, messages, messages[i].sequence);
    }
    if settings.termination.UpTo? && exists t: nat :: s < t && EndsAt(settings, plan, pass, messages, t) {
      var t: nat :| s < t && EndsAt(settings, plan, pass, messages, t);
      var i :| 0 <= i < |messages| && Condemned(settings, plan, pass, messages, i)
               && IsEnded(plan, messages[i]) && messages[i].sequence == t;
      assert Covers(settings, messages[i].sequence, s);
    }
    if EndsAt(settings, plan, pass, messages, s) {
      var i :| 0 <= i < |messages| && Condemned(settings, plan, pass, messages, i)
               && IsEnded(plan, messages[i]) && messages[i].sequence == s;
      assert Covers(settings, messages[i].sequence, s) && IsCopied(plan, messages[i]);
    }
  }

  lemma {:induction false} LaterOne(settings: Settings, plan: Plan, messages: seq<Message>, s: nat)
    requires settings.termination.UpTo? && BatchEnds(settings, plan, messages, s) && !BatchCopies(settings, plan, messages, s)
    ensures LaterEnds(settings, plan, messages, s)
  {
    EndsByWhom(settings, plan, Sift, messages, s);
    EndsByWhom(settings, plan, Refuse, Valid(messages), s);
    if Ends(settings, plan, Sift, messages, s) {
      var t: nat :| s < t && EndsAt(settings, plan, Sift, messages, t);
      assert TerminatedAt(settings, plan, messages, t);
    } else {
      var t: nat :| s < t && EndsAt(settings, plan, Refuse, Valid(messages), t);
      assert TerminatedAt(settings, plan, messages, t);
    }
  }

  /**
   Over every combination of replies an input is lost exactly when it was not copied, the sink did not
   take it, and it was settled by others: by the acknowledgement of a batch it lies below, or, where
   terminations settle everything up to their message, by one of a later message.
   */
  lemma {:induction false} LostExactly(settings: Settings, plan: Plan, shard: Shard, messages: seq<Message>, s: nat)
    requires s in shard.stream
    ensures var after := Consumed(settings, plan, shard, messages).shard;
            && shard.dead <= after.dead
            && (Lost(shard, after, messages, s)
                <==> !BatchCopies(settings, plan, messages, s) && !Handed(settings, plan, messages, s)
                     && (BatchAcknowledges(settings, plan, messages, s)
                         || (settings.termination.UpTo? && LaterEnds(settings, plan, messages, s))))
  {
    ConsumedExactly(settings, plan, shard, messages, s);
    EndsByWhom(settings, plan, Sift, messages, s);
    EndsByWhom(settings, plan, Refuse, Valid(messages), s);
    var after := Consumed(settings, plan, shard, messages).shard;
    if !SinkTakes(settings, plan, messages) {
      assert |after.received| == |shard.received|;
    }
    if BatchEnds(settings, plan, messages, s) && settings.termination.UpTo? && !BatchCopies(settings, plan, messages, s) {
      LaterOne(settings, plan, messages, s);
    }
    if LaterEnds(settings, plan, messages, s) && settings.termination.UpTo? {
      var t: nat :| s < t && TerminatedAt(settings, plan, messages, t);
      assert BatchEnds(settings, plan, messages, s);
    }
  }

  /**
   One way to lose: a decoded message, then two poison ones, the copy of the second of which fails.
   Terminating the first poison message takes the decoded one along before the sink is asked.
   */
  lemma TerminationCanLose(o: Observation)
    ensures var settings, plan := Settings(UpTo, 20), Plan(map[3 := Failed], map[], map[], Done, false);
            var before := Shard({1, 2, 3}, [], [], map[]);
            var messages := [Message(1, Some(o), Some(1)), Message(2, None, Some(1)), Message(3, None, Some(1))];
            Lost(before, Consumed(settings, plan, before, messages).shard, messages, 1)
  {
    var settings, plan := Settings(UpTo, 20), Plan(map[3 := Failed], map[], map[], Done, false);
    var before := Shard({1, 2, 3}, [], [], map[]);
    var messages := [Message(1, Some(o), Some(1)), Message(2, None, Some(1)), Message(3, None, Some(1))];
    LostExactly(settings, plan, before, messages, 1);
    assert !IsSettled(settings, plan, Sift, messages[2]);
    assert AllSettled(settings, plan, Sift, messages[..1]) by { assert messages[..1] == [messages[0]]; }
    assert Condemned(settings, plan, Sift, messages, 1) && IsEnded(plan, messages[1]);
    assert EndsAt(settings, plan, Sift, messages, 2) && TerminatedAt(settings, plan, messages, 2);
  }

  // ----- The acknowledgement floor -----

  /** Everything in the stream up to any message of the batch was fetched with it. */
  predicate StartsAtFloor(stream: set<nat>, messages: seq<Message>) {
    forall s, i :: s in stream && 0 <= i < |messages| && s <= messages[i].sequence ==> InBatch(messages, s)
  }

  /** Under single termination a batch that starts at the floor loses nothing, whatever the broker answers. */
  lemma {:induction false} NoInputIsLost(settings: Settings, plan: Plan, shard: Shard, messages: seq<Message>, s: nat)
    requires settings.termination.Single? && StartsAtFloor(shard.stream, messages) && s in shard.stream
    ensures shard.dead <= Consumed(settings, plan, shard, messages).shard.dead
    ensures !Lost(shard, Consumed(settings, plan, shard, messages).shard, messages, s)
  {
    LostExactly(settings, plan, shard, messages, s);
    if BatchAcknowledges(settings, plan, messages, s) {
      ValidExactly(messages);
      var last := Valid(messages)[|Valid(messages)| - 1];
      assert last in messages;
      var i :| 0 <= i < |messages| && messages[i] == last;
      var j :| 0 <= j < |messages| && messages[j].sequence == s;
      if messages[j].decoded.None? {
        PoisonIsCopied(settings, plan, messages, j);
      }
    }
  }

  /** When the sifting gets through, every poison message has a copy. */
  lemma {:induction false} PoisonIsCopied(settings: Settings, plan: Plan, messages: seq<Message>, j: nat)
    requires j < |messages| && messages[j].decoded.None? && AllSettled(settings, plan, Sift, messages)
    ensures BatchCopies(settings, plan, messages, messages[j].sequence)
  {
    assert IsSettled(settings, plan, Sift, messages[j]);
    assert Condemned(settings, plan, Sift, messages, j) && IsCopied(plan, messages[j]);
  }

  predicate SameSequences(xs: seq<Message>, ys: seq<Message>) {
    |xs| == |ys| && forall i :: 0 <= i < |xs| ==> xs[i].sequence == ys[i].sequence
  }

  /** Whatever messages of these sequences hold, and whatever the broker answers, nothing is lost. */
  ghost predicate NeverLoses(settings: Settings, shard: Shard, messages: seq<Message>) {
    forall plan: Plan, contents: seq<Message>, s: nat ::
      SameSequences(contents, messages) && s in shard.stream ==>
        var after := Consumed(settings, plan, shard, contents).shard;
        shard.dead <= after.dead && !Lost(shard, after, contents, s)
  }

  /** Under single termination fetching from the floor is not only enough, but what it takes. */
  lemma {:induction false} FloorExactly(settings: Settings, shard: Shard, messages: seq<Message>)
    requires settings.termination.Single?
    ensures NeverLoses(settings, shard, messages) <==> StartsAtFloor(shard.stream, messages)
  {
    if StartsAtFloor(shard.stream, messages) {
      forall plan: Plan, contents: seq<Message>, s: nat | SameSequences(contents, messages) && s in shard.stream
        ensures var after := Consumed(settings, plan, shard, contents).shard;
                shard.dead <= after.dead && !Lost(shard, after, contents, s)
      {
        SameFloor(shard.stream, contents, messages);
        NoInputIsLost(settings, plan, shard, contents, s);
      }
    } else {
      var s, i :| s in shard.stream && 0 <= i < |messages| && s <= messages[i].sequence && !InBatch(messages, s);
      var contents := OnlyOneDecodes(messages, i);
      Overtaken(settings, shard, contents, i, s);
      assert !NeverLoses(settings, shard, messages) by {
        assert SameSequences(contents, messages);
      }
    }
  }

  lemma {:induction false} SameFloor(stream: set<nat>, xs: seq<Message>, ys: seq<Message>)
    requires SameSequences(xs, ys) && StartsAtFloor(stream, ys)
    ensures StartsAtFloor(stream, xs)
  {
    forall s, i | s in stream && 0 <= i < |xs| && s <= xs[i].sequence ensures InBatch(xs, s) {
      assert s <= ys[i].sequence && InBatch(ys, s);
      var j :| 0 <= j < |ys| && ys[j].sequence == s;
      assert xs[j].sequence == s;
    }
  }

  const SOMETHING :=
    Observation("", "", "", ZERO_TIME, Status.Confirmed, 0, false, [], Series("", "", ""), None,
                Candle(ZERO_TIME, 0.0, 0.0, 0.0, 0.0), [], [], [], [])

  /** Messages of the same sequences of which exactly one decodes. */
  function OnlyOneDecodes(messages: seq<Message>, i: nat): (contents: seq<Message>)
    requires i < |messages|
    ensures SameSequences(contents, messages)
    ensures forall j :: 0 <= j < |contents| ==> (contents[j].decoded.Some? <==> j == i)
  {
    seq(|messages|, j requires 0 <= j < |messages| =>
      Message(messages[j].sequence, if j == i then Some(SOMETHING) else None, None))
  }

  const ALL_DONE := Plan(map[], map[], map[], Done, false)

  lemma {:induction false} ValidOfOne(messages: seq<Message>, i: nat)
    requires i < |messages| && forall j :: 0 <= j < |messages| ==> (messages[j].decoded.Some? <==> j == i)
    ensures Valid(messages) == [messages[i]]
  {
    var front := messages[..|messages| - 1];
    if i < |front| {
      ValidOfOne(front, i);
    } else {
      NothingValid(front);
    }
  }

  lemma {:induction false} NothingValid(messages: seq<Message>)
    requires forall j :: 0 <= j < |messages| ==> messages[j].decoded.None?
    ensures Valid(messages) == []
  {
    if messages != [] {
      NothingValid(messages[..|messages| - 1]);
    }
  }

  /** A batch whose one decoded message lies above an unfetched one loses it, although every request is answered. */
  lemma {:induction false} Overtaken(settings: Settings, shard: Shard, messages: seq<Message>, i: nat, s: nat)
    requires settings.termination.Single? && s in shard.stream && !InBatch(messages, s)
    requires i < |messages| && s <= messages[i].sequence
    requires forall j :: 0 <= j < |messages| ==> (messages[j].decoded.Some? <==> j == i)
    ensures shard.dead <= Consumed(settings, ALL_DONE, shard, messages).shard.dead
    ensures Lost(shard, Consumed(settings, ALL_DONE, shard, messages).shard, messages, s)
  {
    LostExactly(settings, ALL_DONE, shard, messages, s);
    ValidOfOne(messages, i);
    assert BatchAcknowledges(settings, ALL_DONE, messages, s);
    assert !DecodedIn(messages, s);
    assert !BatchCopies(settings, ALL_DONE, messages, s);
  }

  // ----- Whole runs -----

  /** New messages enter the stream; fetched ones are consumed. */
  datatype Turn = Publish(sequence: nat) | Consume(plan: Plan, messages: seq<Message>)

  function AfterTurn(settings: Settings, shard: Shard, turn: Turn): Shard {
    match turn
    case Publish(sequence) => shard.(stream := shard.stream + {sequence})
    case Consume(plan, messages) => Consumed(settings, plan, shard, messages).shard.(naks := map[])
  }

  function After(settings: Settings, shard: Shard, turns: seq<Turn>): Shard {
    if turns == [] then shard else AfterTurn(settings, After(settings, shard, turns[..|turns| - 1]), turns[|turns| - 1])
  }

  /** Every batch starts at the floor of the stream it was fetched from. */
  ghost predicate KeepsFloor(settings: Settings, shard: Shard, turns: seq<Turn>) {
    turns == [] ||
    var front, last := turns[..|turns| - 1], turns[|turns| - 1];
    && KeepsFloor(settings, shard, front)
    && (last.Consume? ==> StartsAtFloor(After(settings, shard, front).stream, last.messages))
  }

  /** Some batch of the run that the sink took had the message. */
  predicate HandedIn(settings: Settings, turns: seq<Turn>, s: nat) {
    turns != [] &&
    var front, last := turns[..|turns| - 1], turns[|turns| - 1];
    HandedIn(settings, front, s) || (last.Consume? && Handed(settings, last.plan, last.messages, s))
  }

  lemma {:induction false} DeadGrows(settings: Settings, shard: Shard, turns: seq<Turn>)
    ensures shard.dead <= After(settings, shard, turns).dead
  {
    if turns != [] {
      var front, last := turns[..|turns| - 1], turns[|turns| - 1];
      DeadGrows(settings, shard, front);
      if last.Consume? {
        PassedGrows(settings, last.plan, After(settings, shard, front), last.messages);
      }
    }
  }

  lemma {:induction false} PassedGrows(settings: Settings, plan: Plan, shard: Shard, messages: seq<Message>)
    ensures shard.dead <= Consumed(settings, plan, shard, messages).shard.dead
  {
    PassedExactly(settings, plan, Sift, shard, messages, 0);
    PassedExactly(settings, plan, Refuse, Passed(settings, plan, Sift, shard, messages).shard, Valid(messages), 0);
  }

  /** What one turn does to a message that is still there. */
  lemma {:induction false} TurnLosesNothing(settings: Settings, shard: Shard, turn: Turn, s: nat)
    requires settings.termination.Single? && s in shard.stream
    requires turn.Consume? ==> StartsAtFloor(shard.stream, turn.messages)
    ensures var after := AfterTurn(settings, shard, turn);
            && shard.dead <= after.dead
            && (s in after.stream || Copied(after.dead[|shard.dead|..], s)
                || (turn.Consume? && Handed(settings, turn.plan, turn.messages, s)))
  {
    if turn.Consume? {
      NoInputIsLost(settings, turn.plan, shard, turn.messages, s);
      LostExactly(settings, turn.plan, shard, turn.messages, s);
      ConsumedExactly(settings, turn.plan, shard, turn.messages, s);
    }
  }

  /**
   Over any run in which every batch starts at the floor, under single termination and whatever the
   broker answers: a message is still in the stream, has a copy, or was handed to the sink.
   */
  lemma {:induction false} FloorRunsLoseNothing(settings: Settings, shard: Shard, turns: seq<Turn>, s: nat)
    requires settings.termination.Single? && s in shard.stream && KeepsFloor(settings, shard, turns)
    ensures shard.dead <= After(settings, shard, turns).dead
    ensures var after := After(settings, shard, turns);
            s in after.stream || Copied(after.dead[|shard.dead|..], s) || HandedIn(settings, turns, s)
  {
    DeadGrows(settings, shard, turns);
    if turns != [] {
      var front, last := turns[..|turns| - 1], turns[|turns| - 1];
      var before, after := After(settings, shard, front), After(settings, shard, turns);
      FloorRunsLoseNothing(settings, shard, front, s);
      DeadGrows(settings, shard, front);
      AfterGrows(settings, before, last);
      CopiesAdd(shard.dead, before.dead, after.dead, s);
      if s in before.stream {
        TurnLosesNothing(settings, before, last, s);
      }
    }
  }

  lemma {:induction false} AfterGrows(settings: Settings, shard: Shard, turn: Turn)
    ensures shard.dead <= AfterTurn(settings, shard, turn).dead
  {
    if turn.Consume? {
      PassedGrows(settings, turn.plan, shard, turn.messages);
    }
  }

  /** It is gone, without a copy, and was never handed to the sink. */
  predicate LostIn(settings: Settings, shard: Shard, turns: seq<Turn>, s: nat)
    requires shard.dead <= After(settings, shard, turns).dead
  {
    && s !in After(settings, shard, turns).stream
    && !Copied(After(settings, shard, turns).dead[|shard.dead|..], s) && !HandedIn(settings, turns, s)
  }

  /** Batches hold messages of the stream, and a sequence is published once. */
  ghost predicate Proper(settings: Settings, shard: Shard, turns: seq<Turn>, s: nat) {
    turns == [] ||
    var front, last := turns[..|turns| - 1], turns[|turns| - 1];
    && Proper(settings, shard, front, s)
    && match last
       case Publish(sequence) => sequence != s
       case Consume(_, messages) => InBatch(messages, s) ==> s in After(settings, shard, front).stream
  }

  /**
   Over any run at all, with either kind of termination: a message of the stream is lost exactly when
   some turn loses it that no earlier turn had copied or handed over.
   */
  lemma {:induction false} RunLosesExactly(settings: Settings, shard: Shard, turns: seq<Turn>, s: nat)
    requires s in shard.stream && Proper(settings, shard, turns, s)
    ensures shard.dead <= After(settings, shard, turns).dead
    ensures LostIn(settings, shard, turns, s)
            <==> exists n :: 0 <= n < |turns| && LosesAt(settings, shard, turns, s, n)
  {
    DeadGrows(settings, shard, turns);
    if turns != [] {
      var front, last := turns[..|turns| - 1], turns[|turns| - 1];
      RunLosesExactly(settings, shard, front, s);
      LastTurnLoses(settings, shard, turns, s);
      forall n | 0 <= n < |front|
        ensures LosesAt(settings, shard, turns, s, n) == LosesAt(settings, shard, front, s, n)
      {
        assert turns[..n] == front[..n];
      }
      if exists n :: 0 <= n < |front| && LosesAt(settings, shard, front, s, n) {
        var n :| 0 <= n < |front| && LosesAt(settings, shard, front, s, n);
        assert LosesAt(settings, shard, turns, s, n);
      }
      assert turns[..|front|] == front;
    }
  }

  /** The n-th turn loses the message, and no earlier one had settled it otherwise. */
  ghost predicate LosesAt(settings: Settings, shard: Shard, turns: seq<Turn>, s: nat, n: nat)
    requires n < |turns|
  {
    var before := After(settings, shard, turns[..n]);
    && turns[n].Consume? && s in before.stream
    && !BatchCopies(settings, turns[n].plan, turns[n].messages, s) && !Handed(settings, turns[n].plan, turns[n].messages, s)
    && (BatchAcknowledges(settings, turns[n].plan, turns[n].messages, s)
        || (settings.termination.UpTo? && LaterEnds(settings, turns[n].plan, turns[n].messages, s)))
    && !HandedIn(settings, turns[..n], s)
    && shard.dead <= before.dead && !Copied(before.dead[|shard.dead|..], s)
  }

  /** The last turn of a run: nothing is copied or handed over once it is gone, and it goes by a loss or otherwise. */
  lemma {:induction false} LastTurnLoses(settings: Settings, shard: Shard, turns: seq<Turn>, s: nat)
    requires turns != [] && s in shard.stream && Proper(settings, shard, turns, s)
    ensures shard.dead <= After(settings, shard, turns).dead
    ensures var front := turns[..|turns| - 1];
            && shard.dead <= After(settings, shard, front).dead
            && (LostIn(settings, shard, turns, s)
                <==> LostIn(settings, shard, front, s) || LosesAt(settings, shard, turns, s, |front|))
  {
    var front, last := turns[..|turns| - 1], turns[|turns| - 1];
    var before, after := After(settings, shard, front), After(settings, shard, turns);
    DeadGrows(settings, shard, turns);
    DeadGrows(settings, shard, front);
    AfterGrows(settings, before, last);
    CopiesAdd(shard.dead, before.dead, after.dead, s);
    assert turns[..|front|] == front;
    match last {
      case Publish(_) =>
        assert after.dead[|before.dead|..] == [];
      case Consume(plan, messages) =>
        if s in before.stream {
          LostExactly(settings, plan, before, messages, s);
          ConsumedExactly(settings, plan, before, messages, s);
        } else {
          AbsentIsUntouched(settings, plan, before, messages, s);
        }
    }
  }

  /** A message that is not in the batch is neither copied nor handed over by it, and does not come back. */
  lemma {:induction false} AbsentIsUntouched(settings: Settings, plan: Plan, shard: Shard, messages: seq<Message>, s: nat)
    requires s !in shard.stream && !InBatch(messages, s)
    ensures var after := Consumed(settings, plan, shard, messages).shard;
            && s !in after.stream && shard.dead <= after.dead && !Copied(after.dead[|shard.dead|..], s)
            && !Handed(settings, plan, messages, s)
  {
    var sifted := Passed(settings, plan, Sift, shard, messages).shard;
    PassedExactly(settings, plan, Sift, shard, messages, s);
    ValidExactly(messages);
    assert !Copies(settings, plan, Sift, messages, s);
    if SinkRefuses(settings, plan, messages) {
      PassedExactly(settings, plan, Refuse, sifted, Valid(messages), s);
      CopiesAdd(shard.dead, sifted.dead, Passed(settings, plan, Refuse, sifted, Valid(messages)).shard.dead, s);
      forall i | 0 <= i < |Valid(messages)| ensures Valid(messages)[i].sequence != s {
        assert Valid(messages)[i] in Valid(messages);
        var j :| 0 <= j < |messages| && messages[j] == Valid(messages)[i];
      }
    }
  }

  // ----- When fetches start at the floor -----

  /** When messages that were delivered become available again. */
  type Due = map<nat, Time>

  predicate Available(due: Due, now: Time, s: nat) {
    s in due ==> due[s] <= now
  }

  /** The broker hands out available messages in stream order, none left out up to the last one. */
  ghost predicate IsFetch(stream: set<nat>, due: Due, now: Time, messages: seq<Message>) {
    && Increasing(messages)
    && (forall i :: 0 <= i < |messages| ==> messages[i].sequence in stream && Available(due, now, messages[i].sequence))
    && (forall s, i :: s in stream && 0 <= i < |messages| && s <= messages[i].sequence && Available(due, now, s)
                       ==> InBatch(messages, s))
  }

  /** No message below the last fetched one still waits for its redelivery. */
  ghost predicate NoneWaiting(stream: set<nat>, due: Due, now: Time, messages: seq<Message>) {
    forall s, i :: s in stream && 0 <= i < |messages| && s <= messages[i].sequence ==> Available(due, now, s)
  }

  /** A fetch starts at the floor exactly when it overtakes no waiting message. */
  lemma {:induction false} FetchKeepsFloorExactly(stream: set<nat>, due: Due, now: Time, messages: seq<Message>)
    requires IsFetch(stream, due, now, messages)
    ensures StartsAtFloor(stream, messages) <==> NoneWaiting(stream, due, now, messages)
  {
    if StartsAtFloor(stream, messages) {
      forall s, i | s in stream && 0 <= i < |messages| && s <= messages[i].sequence ensures Available(due, now, s) {
        assert InBatch(messages, s);
        var j :| 0 <= j < |messages| && messages[j].sequence == s;
      }
    }
  }

  /** A shard with the waiting times of its outstanding messages. */
  datatype Timed = Timed(shard: Shard, due: Due)

  datatype Poll = Arrival(sequence: nat) | Poll(at: Time, plan: Plan, messages: seq<Message>)

  /** A nak schedules a message after its delay; without one it waits for the acknowledgement timeout. */
  function Waits(naks: map<nat, int>, at: Time, ackWait: Duration, messages: seq<Message>): Due {
    if messages == [] then map[]
    else
      var s := messages[|messages| - 1].sequence;
      Waits(naks, at, ackWait, messages[..|messages| - 1])[s := at + if s in naks then naks[s] else ackWait]
  }

  function TurnOf(poll: Poll): Turn {
    match poll
    case Arrival(sequence) => Publish(sequence)
    case Poll(_, plan, messages) => Consume(plan, messages)
  }

  function Turns(polls: seq<Poll>): (turns: seq<Turn>)
    ensures |turns| == |polls|
  {
    if polls == [] then [] else Turns(polls[..|polls| - 1]) + [TurnOf(polls[|polls| - 1])]
  }

  function AfterPoll(settings: Settings, ackWait: Duration, t: Timed, poll: Poll): Timed {
    Timed(AfterTurn(settings, t.shard, TurnOf(poll)),
          match poll
          case Arrival(_) => t.due
          case Poll(at, plan, messages) =>
            t.due + Waits(Consumed(settings, plan, t.shard, messages).shard.naks, at, ackWait, messages))
  }

  function AfterPolls(settings: Settings, ackWait: Duration, t: Timed, polls: seq<Poll>): Timed {
    if polls == [] then t
    else AfterPoll(settings, ackWait, AfterPolls(settings, ackWait, t, polls[..|polls| - 1]), polls[|polls| - 1])
  }

  /** The broker answers every poll with a fetch, and none of them overtakes a waiting message. */
  ghost predicate Patient(settings: Settings, ackWait: Duration, t: Timed, polls: seq<Poll>) {
    polls == [] ||
    var front, last := polls[..|polls| - 1], polls[|polls| - 1];
    var reached := AfterPolls(settings, ackWait, t, front);
    && Patient(settings, ackWait, t, front)
    && (last.Poll? ==>
          && IsFetch(reached.shard.stream, reached.due, last.at, last.messages)
          && NoneWaiting(reached.shard.stream, reached.due, last.at, last.messages))
  }

  lemma {:induction false} PatientKeepsFloor(settings: Settings, ackWait: Duration, t: Timed, polls: seq<Poll>)
    requires Patient(settings, ackWait, t, polls)
    ensures KeepsFloor(settings, t.shard, Turns(polls))
    ensures After(settings, t.shard, Turns(polls)) == AfterPolls(settings, ackWait, t, polls).shard
  {
    if polls != [] {
      var front, last := polls[..|polls| - 1], polls[|polls| - 1];
      PatientKeepsFloor(settings, ackWait, t, front);
      TurnsSnoc(polls);
      OneMoreTurn(settings, t.shard, Turns(front), TurnOf(last));
      var reached := AfterPolls(settings, ackWait, t, front);
      if last.Poll? {
        FetchKeepsFloorExactly(reached.shard.stream, reached.due, last.at, last.messages);
      }
    }
  }

  lemma {:induction false} TurnsSnoc(polls: seq<Poll>)
    requires polls != []
    ensures Turns(polls) == Turns(polls[..|polls| - 1]) + [TurnOf(polls[|polls| - 1])]
  {
  }

  lemma {:induction false} OneMoreTurn(settings: Settings, shard: Shard, turns: seq<Turn>, last: Turn)
    ensures After(settings, shard, turns + [last]) == AfterTurn(settings, After(settings, shard, turns), last)
    ensures KeepsFloor(settings, shard, turns + [last])
            <==> KeepsFloor(settings, shard, turns)
                 && (last.Consume? ==> StartsAtFloor(After(settings, shard, turns).stream, last.messages))
  {
    assert (turns + [last])[..|turns|] == turns;
  }

  /** Patient consumption loses nothing under single termination, whatever the broker answers. */
  lemma {:induction false} PatientRunsLoseNothing(settings: Settings, ackWait: Duration, t: Timed, polls: seq<Poll>, s: nat)
    requires settings.termination.Single? && s in t.shard.stream && Patient(settings, ackWait, t, polls)
    ensures t.shard.dead <= AfterPolls(settings, ackWait, t, polls).shard.dead
    ensures var after := AfterPolls(settings, ackWait, t, polls).shard;
            s in after.stream || Copied(after.dead[|t.shard.dead|..], s) || HandedIn(settings, Turns(polls), s)
  {
    PatientKeepsFloor(settings, ackWait, t, polls);
    FloorRunsLoseNothing(settings, t.shard, Turns(polls), s);
  }

  /** A batch of one decoded message, delivered for the first time. */
  function One(sequence: nat, o: Observation): seq<Message> {
    [Message(sequence, Some(o), Some(1))]
  }

  const SINK_REFUSES := Plan(map[], map[], map[], Done, true)

  const BEFORE := Shard({1}, [], [], map[])
  const LATER := Shard({1, 2}, [], [], map[])

  /** The sink refuses a first message, then a second one arrives. */
  function RefusedFirst(a: Observation): seq<Poll> {
    [Poll(0, SINK_REFUSES, One(1, a)), Arrival(2)]
  }

  lemma {:induction false} PassOne(settings: Settings, plan: Plan, pass: Pass, shard: Shard, m: Message)
    ensures Passed(settings, plan, pass, shard, [m]) == Handled(settings, plan, pass, shard, m)
  {
    assert [m][..0] == [];
    assert Passed(settings, plan, pass, shard, [m][..0]) == Attempt(shard, true);
  }

  lemma {:induction false} ValidOne(m: Message)
    requires m.decoded.Some?
    ensures Valid([m]) == [m]
  {
    assert [m][..0] == [];
    assert Valid([m][..0]) == [];
  }

  /** A batch of one decoded message that the sink refuses. */
  lemma {:induction false} ConsumedOne(settings: Settings, plan: Plan, shard: Shard, m: Message)
    requires m.decoded.Some? && plan.sinkFails
    ensures Consumed(settings, plan, shard, [m]).shard == Handled(settings, plan, Refuse, shard, m).shard
  {
    PassOne(settings, plan, Sift, shard, m);
    PassOne(settings, plan, Refuse, shard, m);
    ValidOne(m);
  }

  lemma {:induction false} FirstDelay()
    ensures RetryDelay(1) == SECOND
  {
    assert Power(0) == 1;
  }

  lemma {:induction false} OneRefused(settings: Settings, a: Observation)
    requires 1 < settings.maxDeliveries
    ensures Consumed(settings, SINK_REFUSES, BEFORE, One(1, a)).shard == Shard({1}, [], [], map[1 := SECOND])
  {
    ConsumedOne(settings, SINK_REFUSES, BEFORE, Message(1, Some(a), Some(1)));
    FirstDelay();
  }

  lemma {:induction false} OneWait(naks: map<nat, int>, at: Time, ackWait: Duration, m: Message)
    ensures Waits(naks, at, ackWait, [m]) == map[m.sequence := at + if m.sequence in naks then naks[m.sequence] else ackWait]
  {
    assert [m][..0] == [];
    assert Waits(naks, at, ackWait, [m][..0]) == map[];
  }

  lemma {:induction false} PollsSnoc(settings: Settings, ackWait: Duration, t: Timed, polls: seq<Poll>, last: Poll)
    ensures AfterPolls(settings, ackWait, t, polls + [last])
            == AfterPoll(settings, ackWait, AfterPolls(settings, ackWait, t, polls), last)
    ensures Turns(polls + [last]) == Turns(polls) + [TurnOf(last)]
  {
    assert (polls + [last])[..|polls|] == polls;
  }

  /** After the refusal both messages are in the stream, and the first waits for a second. */
  lemma {:induction false} ReachedByRefusal(settings: Settings, ackWait: Duration, a: Observation)
    requires 1 < settings.maxDeliveries
    ensures AfterPolls(settings, ackWait, Timed(BEFORE, map[]), RefusedFirst(a)) == Timed(LATER, map[1 := SECOND])
    ensures After(settings, BEFORE, Turns(RefusedFirst(a))) == LATER
    ensures Turns(RefusedFirst(a)) == [Consume(SINK_REFUSES, One(1, a)), Publish(2)]
  {
    var polls, start := RefusedFirst(a), Timed(BEFORE, map[]);
    assert [] + [polls[0]] == [polls[0]] && [polls[0]] + [polls[1]] == polls;
    PollsSnoc(settings, ackWait, start, [], polls[0]);
    PollsSnoc(settings, ackWait, start, [polls[0]], polls[1]);
    OneRefused(settings, a);
    OneWait(map[1 := SECOND], 0, ackWait, One(1, a)[0]);
    var once := AfterPolls(settings, ackWait, start, [polls[0]]);
    assert once == Timed(BEFORE, map[] + map[1 := SECOND]);
    OneMoreTurn(settings, BEFORE, [], TurnOf(polls[0]));
    OneMoreTurn(settings, BEFORE, [TurnOf(polls[0])], TurnOf(polls[1]));
    assert [] + [TurnOf(polls[0])] == [TurnOf(polls[0])];
    assert BEFORE.stream + {2} == {1, 2};
  }

  /** Polled within the second, exactly then, the broker hands out the second message alone. */
  lemma {:induction false} SecondAlone(b: Observation, at: Time)
    ensures IsFetch({1, 2}, map[1 := SECOND], at, One(2, b)) <==> at < SECOND
  {
    var stream, due, second := {1, 2}, map[1 := SECOND], One(2, b);
    assert second[0].sequence == 2;
    assert !InBatch(second, 1) && InBatch(second, 2);
    assert Available(due, at, 1) <==> SECOND <= at;
    if SECOND <= at {
      assert 1 in stream && 1 <= second[0].sequence;
    }
  }

  /** A last turn that loses a message nobody had copied or taken. */
  lemma {:induction false} LosingTurn(settings: Settings, shard: Shard, turns: seq<Turn>, plan: Plan, messages: seq<Message>, s: nat)
    requires s in After(settings, shard, turns).stream && After(settings, shard, turns).dead == shard.dead
    requires !HandedIn(settings, turns, s)
    requires var before := After(settings, shard, turns);
             var after := Consumed(settings, plan, before, messages).shard;
             before.dead <= after.dead && Lost(before, after, messages, s)
    ensures shard.dead <= After(settings, shard, turns + [Consume(plan, messages)]).dead
    ensures LostIn(settings, shard, turns + [Consume(plan, messages)], s)
  {
    var all := turns + [Consume(plan, messages)];
    assert all[..|all| - 1] == turns && all[|all| - 1] == Consume(plan, messages);
    LostExactly(settings, plan, After(settings, shard, turns), messages, s);
  }

  lemma {:induction false} NotHandedYet(settings: Settings, a: Observation)
    ensures !HandedIn(settings, [Consume(SINK_REFUSES, One(1, a)), Publish(2)], 1)
  {
    var turns := [Consume(SINK_REFUSES, One(1, a)), Publish(2)];
    assert turns[..1] == [turns[0]] && turns[..1][..0] == [];
    assert !HandedIn(settings, turns[..1][..0], 1);
    assert !HandedIn(settings, turns[..1], 1);
  }

  /**
   The consumer as written is not patient. The sink refuses a first message, which is scheduled one
   second later; a second message arrives. Polled within that second the broker hands out the second
   message alone, exactly then; the sink takes it, and its acknowledgement settles the first as well.
   Every request is answered, and the first message is lost.
   */
  lemma {:induction false} RefusedThenOvertaken(settings: Settings, ackWait: Duration, a: Observation, b: Observation, at: Time)
    requires settings.termination.Single? && 1 < settings.maxDeliveries
    ensures IsFetch(BEFORE.stream, map[], 0, One(1, a))
    ensures var reached := AfterPolls(settings, ackWait, Timed(BEFORE, map[]), RefusedFirst(a));
            IsFetch(reached.shard.stream, reached.due, at, One(2, b)) <==> at < SECOND
    ensures var turns := Turns(RefusedFirst(a)) + [Consume(ALL_DONE, One(2, b))];
            BEFORE.dead <= After(settings, BEFORE, turns).dead && LostIn(settings, BEFORE, turns, 1)
  {
    var first, second := One(1, a), One(2, b);
    assert first[0].sequence == 1 && InBatch(first, 1);
    ReachedByRefusal(settings, ackWait, a);
    SecondAlone(b, at);
    assert second[0].sequence == 2 && !InBatch(second, 1);
    Overtaken(settings, LATER, second, 0, 1);
    NotHandedYet(settings, a);
    LosingTurn(settings, BEFORE, Turns(RefusedFirst(a)), ALL_DONE, second, 1);
  }
}
