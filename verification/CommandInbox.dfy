/** At-least-once commands: any number of consumers, redeliveries, faults, failed replies and crashes.
    The inbox row is written after the work; the order that claims it first is kept beside it. */
module CommandInbox {

  /** A command as the broker delivers it. Replays of one player action share a key, not a request id. */
  datatype Message = Message(request: string, key: string, wellFormed: bool, viaBot: bool)

  datatype Order = RecordAfter | ClaimFirst

  /** Where a consumer stands with the message it was given. */
  datatype Phase =
    | Idle
    | Claiming(m: Message)
    | Running(m: Message)
    | Replying(m: Message)
    | Recording(m: Message)
    | Acking(m: Message)

  datatype System = System(
    acked: set<Message>,
    effects: seq<string>,        // the commands that took effect, by key, in commit order
    reserved: set<string>,       // the idempotency keys taken
    refused: set<Message>,       // the messages answered with a refusal
    answered: set<Message>,      // the messages whose reply went out, or needed none
    inbox: set<string>,          // the request ids recorded as processed
    consumers: map<int, Phase>)
  {
    function PhaseOf(w: int): Phase { if w in consumers then consumers[w] else Idle }

    function With(w: int, phase: Phase): System { this.(consumers := consumers[w := phase]) }
  }

  const START := System({}, [], {}, {}, {}, {}, map[])

  datatype Step =
    | Deliver(w: int, m: Message)    // first delivery or redelivery, to any consumer
    | Claim(w: int)                  // claim-first only: take the inbox row or skip the message
    | Commit(w: int)                 // the handler's transaction commits and it succeeds
    | CommitThenFail(w: int)         // it commits, but the handler reports an internal error
    | Refuse(w: int)                 // a classified refusal: an answer, not a fault
    | Fault(w: int)                  // an internal error: back to the broker
    | Reply(w: int)
    | ReplyFails(w: int)
    | Record(w: int, written: bool)  // a failed inbox write is only logged
    | Ack(w: int)
    | AckLost(w: int)
    | Crash(w: int)

  /** Key and effect commit together: a key already taken has had its effect, and gets no other. */
  function Committed(s: System, key: string): System {
    if key in s.reserved then s else s.(effects := s.effects + [key], reserved := s.reserved + {key})
  }

  predicate Enabled(order: Order, s: System, step: Step) {
    match step
    case Deliver(w, m) => s.PhaseOf(w).Idle? && m !in s.acked
    case Claim(w) => order.ClaimFirst? && s.PhaseOf(w).Claiming?
    case Commit(w) => s.PhaseOf(w).Running?
    case CommitThenFail(w) => s.PhaseOf(w).Running?
    case Refuse(w) => s.PhaseOf(w).Running?
    case Fault(w) => s.PhaseOf(w).Running?
    case Reply(w) => s.PhaseOf(w).Replying?
    case ReplyFails(w) => s.PhaseOf(w).Replying? && s.PhaseOf(w).m.viaBot
    case Record(w, _) => s.PhaseOf(w).Recording?
    case Ack(w) => s.PhaseOf(w).Acking?
    case AckLost(w) => s.PhaseOf(w).Acking?
    case Crash(w) => !s.PhaseOf(w).Idle?
  }

  function Next(order: Order, s: System, step: Step): System
    requires Enabled(order, s, step)
  {
    match step
    case Deliver(w, m) =>
      s.With(w, if !m.wellFormed then Acking(m) else if order.ClaimFirst? then Claiming(m) else Running(m))
    case Claim(w) =>
      var m := s.PhaseOf(w).m;
      if m.request in s.inbox then s.With(w, Acking(m))
      else s.(inbox := s.inbox + {m.request}).With(w, Running(m))
    case Commit(w) => Committed(s, s.PhaseOf(w).m.key).With(w, Replying(s.PhaseOf(w).m))
    case CommitThenFail(w) => Committed(s, s.PhaseOf(w).m.key).With(w, Idle)
    case Refuse(w) => s.(refused := s.refused + {s.PhaseOf(w).m}).With(w, Replying(s.PhaseOf(w).m))
    case Fault(w) => s.With(w, Idle)
    case Reply(w) =>
      s.(answered := s.answered + {s.PhaseOf(w).m})
       .With(w, if order.ClaimFirst? then Acking(s.PhaseOf(w).m) else Recording(s.PhaseOf(w).m))
    case ReplyFails(w) => s.With(w, Idle)
    case Record(w, written) =>
      var m := s.PhaseOf(w).m;
      (if written then s.(inbox := s.inbox + {m.request}) else s).With(w, Acking(m))
    case Ack(w) => s.(acked := s.acked + {s.PhaseOf(w).m}).With(w, Idle)
    case AckLost(w) => s.With(w, Idle)
    case Crash(w) => s.With(w, Idle)
  }

  /** The steps can be taken one after another. */
  predicate Possible(order: Order, s: System, steps: seq<Step>)
    decreases |steps|
  {
    steps == [] || (Enabled(order, s, steps[0]) && Possible(order, Next(order, s, steps[0]), steps[1..]))
  }

  function Run(order: Order, s: System, steps: seq<Step>): System
    requires Possible(order, s, steps)
    decreases |steps|
  {
    if steps == [] then s else Run(order, Next(order, s, steps[0]), steps[1..])
  }

  // ----- safety of recording after the work

  /** The message had its effect, or its refusal. */
  predicate Settled(s: System, m: Message) { m.key in s.reserved || m in s.refused }

  predicate Through(p: Phase) { p.Replying? || p.Recording? || p.Acking? }

  ghost predicate Safe(s: System) {
    && (forall m | m in s.acked && m.wellFormed :: Settled(s, m) && m in s.answered)
    && (forall w | w in s.consumers && (s.consumers[w].Recording? || s.consumers[w].Acking?) ::
          s.consumers[w].m.wellFormed ==> s.consumers[w].m in s.answered)
    && (forall w | w in s.consumers && Through(s.consumers[w]) && s.consumers[w].m.wellFormed ::
          Settled(s, s.consumers[w].m))
    && (forall w | w in s.consumers && (s.consumers[w].Replying? || s.consumers[w].Recording?) ::
          s.consumers[w].m.wellFormed)
    && (forall w | w in s.consumers && s.consumers[w].Running? :: s.consumers[w].m.wellFormed)
    && (forall i, j | 0 <= i < j < |s.effects| :: s.effects[i] != s.effects[j])
    && (forall k :: k in s.effects <==> k in s.reserved)
  }

  /** Every recorded request is one whose message was settled. */
  ghost predicate InboxTellsTheTruth(s: System) {
    forall id | id in s.inbox :: exists m: Message :: m.request == id && m.wellFormed && Settled(s, m)
  }

  lemma StepIsSafe(s: System, step: Step)
    requires Safe(s) && Enabled(RecordAfter, s, step)
    requires forall w | w in s.consumers :: !s.consumers[w].Claiming?
    ensures Safe(Next(RecordAfter, s, step))
    ensures forall w | w in Next(RecordAfter, s, step).consumers :: !Next(RecordAfter, s, step).consumers[w].Claiming?
    ensures s.effects <= Next(RecordAfter, s, step).effects && s.refused <= Next(RecordAfter, s, step).refused
  {
    var s' := Next(RecordAfter, s, step);
    assert s.reserved <= s'.reserved;
  }

  lemma StepKeepsInboxTrue(s: System, step: Step)
    requires Safe(s) && InboxTellsTheTruth(s) && Enabled(RecordAfter, s, step)
    ensures InboxTellsTheTruth(Next(RecordAfter, s, step))
  {
    var s' := Next(RecordAfter, s, step);
    forall id | id in s'.inbox
      ensures exists m: Message :: m.request == id && m.wellFormed && Settled(s', m)
    {
      if id in s.inbox {
        var m: Message :| m.request == id && m.wellFormed && Settled(s, m);
        assert Settled(s', m);
      } else {
        var m := s.PhaseOf(step.w).m;
        assert Settled(s', m) && m.wellFormed;
      }
    }
  }

  lemma {:induction false} RunIsSafe(s: System, steps: seq<Step>)
    requires Safe(s) && InboxTellsTheTruth(s) && Possible(RecordAfter, s, steps)
    requires forall w | w in s.consumers :: !s.consumers[w].Claiming?
    ensures Safe(Run(RecordAfter, s, steps)) && InboxTellsTheTruth(Run(RecordAfter, s, steps))
    decreases |steps|
  {
    if steps != [] {
      StepIsSafe(s, steps[0]);
      StepKeepsInboxTrue(s, steps[0]);
      RunIsSafe(Next(RecordAfter, s, steps[0]), steps[1..]);
    }
  }

  /** In every run, with any interleaving of consumers, redeliveries, faults, failed replies and crashes:
      a well-formed command is acknowledged only once it took effect or was refused and its reply, if any, went
      out; no idempotency key takes effect twice; and the inbox records only settled commands. */
  lemma AcknowledgedMeansDone(steps: seq<Step>)
    requires Possible(RecordAfter, START, steps)
    ensures var s := Run(RecordAfter, START, steps);
      && (forall m | m in s.acked && m.wellFormed :: (m.key in s.effects || m in s.refused) && m in s.answered)
      && (forall i, j | 0 <= i < j < |s.effects| :: s.effects[i] != s.effects[j])
      && InboxTellsTheTruth(s)
  {
    RunIsSafe(START, steps);
  }

  lemma RunOn(order: Order, s: System, step: Step, rest: seq<Step>)
    requires Enabled(order, s, step) && Possible(order, Next(order, s, step), rest)
    ensures Possible(order, s, [step] + rest)
    ensures Run(order, s, [step] + rest) == Run(order, Next(order, s, step), rest)
  {
    assert ([step] + rest)[1..] == rest;
  }

  /** Nothing is lost either: from any state a command still unacknowledged can be delivered to an idle
      consumer, take effect, and be acknowledged. */
  lemma UnacknowledgedCanFinish(s: System, m: Message, w: int)
    requires m !in s.acked && m.wellFormed && s.PhaseOf(w).Idle?
    ensures var steps := [Deliver(w, m)] + ([Commit(w)] + ([Reply(w)] + ([Record(w, true)] + ([Ack(w)] + []))));
      && Possible(RecordAfter, s, steps)
      && var after := Run(RecordAfter, s, steps);
         m in after.acked && m.key in after.reserved && m.request in after.inbox && after.PhaseOf(w).Idle?
  {
    var s1 := Next(RecordAfter, s, Deliver(w, m));
    var s2 := Next(RecordAfter, s1, Commit(w));
    var s3 := Next(RecordAfter, s2, Reply(w));
    var s4 := Next(RecordAfter, s3, Record(w, true));
    RunOn(RecordAfter, s4, Ack(w), []);
    RunOn(RecordAfter, s3, Record(w, true), [Ack(w)] + []);
    RunOn(RecordAfter, s2, Reply(w), [Record(w, true)] + ([Ack(w)] + []));
    RunOn(RecordAfter, s1, Commit(w), [Reply(w)] + ([Record(w, true)] + ([Ack(w)] + [])));
    RunOn(RecordAfter, s, Deliver(w, m), [Commit(w)] + ([Reply(w)] + ([Record(w, true)] + ([Ack(w)] + []))));
  }

  /** The broker delivers to consumers with nothing in hand, and never again what was acknowledged; and only a
      command that came through a bot has a reply to lose. */
  lemma DeliveriesAndReplies(order: Order, s: System, w: int, m: Message)
    ensures Enabled(order, s, Deliver(w, m)) ==> s.PhaseOf(w) == Idle && m !in s.acked
    ensures Enabled(order, s, ReplyFails(w)) ==> s.PhaseOf(w) == Replying(s.PhaseOf(w).m) && s.PhaseOf(w).m.viaBot
  {
  }

  /** Undisturbed, the order the service rejects does the same work: the difference is in the faults. */
  lemma ClaimingFirstWorksUndisturbed(m: Message, w: int)
    requires m.wellFormed
    ensures var steps := [Deliver(w, m)] + ([Claim(w)] + ([Commit(w)] + ([Reply(w)] + ([Ack(w)] + []))));
      && Possible(ClaimFirst, START, steps)
      && var after := Run(ClaimFirst, START, steps);
         m in after.acked && m.request in after.inbox && after.effects == [m.key] && after.answered == {m}
  {
    var s1 := Next(ClaimFirst, START, Deliver(w, m));
    var s2 := Next(ClaimFirst, s1, Claim(w));
    var s3 := Next(ClaimFirst, s2, Commit(w));
    var s4 := Next(ClaimFirst, s3, Reply(w));
    RunOn(ClaimFirst, s4, Ack(w), []);
    RunOn(ClaimFirst, s3, Reply(w), [Ack(w)] + []);
    RunOn(ClaimFirst, s2, Commit(w), [Reply(w)] + ([Ack(w)] + []));
    RunOn(ClaimFirst, s1, Claim(w), [Commit(w)] + ([Reply(w)] + ([Ack(w)] + [])));
    RunOn(ClaimFirst, START, Deliver(w, m), [Claim(w)] + ([Commit(w)] + ([Reply(w)] + ([Ack(w)] + []))));
  }

  /** The order the service rejects: with the claim taken first, a fault followed by a redelivery
      acknowledges a well-formed command that never took effect and was never refused. */
  lemma ClaimingFirstLosesCommands(m: Message, w: int)
    requires m.wellFormed
    ensures var again := [Deliver(w, m)] + ([Claim(w)] + ([Ack(w)] + []));
            var steps := [Deliver(w, m)] + ([Claim(w)] + ([Fault(w)] + again));
      && Possible(ClaimFirst, START, steps)
      && var after := Run(ClaimFirst, START, steps);
         m in after.acked && m.request in after.inbox && after.effects == [] && after.refused == {}
  {
    var s1 := Next(ClaimFirst, START, Deliver(w, m));
    var s2 := Next(ClaimFirst, s1, Claim(w));
    var s3 := Next(ClaimFirst, s2, Fault(w));
    var s4 := Next(ClaimFirst, s3, Deliver(w, m));
    var s5 := Next(ClaimFirst, s4, Claim(w));
    RunOn(ClaimFirst, s5, Ack(w), []);
    RunOn(ClaimFirst, s4, Claim(w), [Ack(w)] + []);
    RunOn(ClaimFirst, s3, Deliver(w, m), [Claim(w)] + ([Ack(w)] + []));
    RunOn(ClaimFirst, s2, Fault(w), [Deliver(w, m)] + ([Claim(w)] + ([Ack(w)] + [])));
    RunOn(ClaimFirst, s1, Claim(w), [Fault(w)] + ([Deliver(w, m)] + ([Claim(w)] + ([Ack(w)] + []))));
    RunOn(ClaimFirst, START, Deliver(w, m),
          [Claim(w)] + ([Fault(w)] + ([Deliver(w, m)] + ([Claim(w)] + ([Ack(w)] + [])))));
  }

  // ----- the code of one delivery

  /** What the command's own handler reports. */
  datatype Outcome = Succeeded(answer: bool) | RefusedWith(answer: bool) | Failed(committed: bool)

  function WorkStep(w: int, outcome: Outcome): Step {
    match outcome
    case Succeeded(_) => Commit(w)
    case RefusedWith(_) => Refuse(w)
    case Failed(committed) => if committed then CommitThenFail(w) else Fault(w)
  }

  /** A reply is sent only when there is something to show and the command came through a bot. */
  predicate ReplyLost(m: Message, outcome: Outcome, sent: bool) {
    m.viaBot && !sent && !outcome.Failed? && outcome.answer
  }

  /** The steps one undisturbed delivery takes, up to the acknowledgement or the retry. */
  function HandleSteps(w: int, m: Message, outcome: Outcome, sent: bool, written: bool): seq<Step> {
    if !m.wellFormed then [Deliver(w, m)]
    else if outcome.Failed? then [Deliver(w, m), WorkStep(w, outcome)]
    else if ReplyLost(m, outcome, sent) then [Deliver(w, m), WorkStep(w, outcome), ReplyFails(w)]
    else [Deliver(w, m), WorkStep(w, outcome), Reply(w), Record(w, written)]
  }

  function Worked(s: System, m: Message, outcome: Outcome): System {
    match outcome
    case Failed(committed) => if committed then Committed(s, m.key) else s
    case Succeeded(_) => Committed(s, m.key)
    case RefusedWith(_) => s.(refused := s.refused + {m})
  }

  /** What one undisturbed delivery leaves behind. */
  function Handled(s: System, w: int, m: Message, outcome: Outcome, sent: bool, written: bool): System {
    if !m.wellFormed then s.With(w, Acking(m))
    else
      var worked := Worked(s, m, outcome);
      if outcome.Failed? || ReplyLost(m, outcome, sent) then worked.With(w, Idle)
      else Recorded(worked, m, written).With(w, Acking(m))
  }

  /** The reply went out, and the inbox row was written unless that failed. */
  function Recorded(s: System, m: Message, written: bool): System {
    s.(answered := s.answered + {m}, inbox := if written then s.inbox + {m.request} else s.inbox)
  }

  lemma Overwrites(s: System, w: int, p: Phase, p': Phase)
    ensures s.With(w, p).With(w, p') == s.With(w, p')
  {
    assert s.consumers[w := p][w := p'] == s.consumers[w := p'];
  }

  lemma WorkStepWorks(s: System, w: int, m: Message, outcome: Outcome)
    ensures var s1 := s.With(w, Running(m));
      && Enabled(RecordAfter, s1, WorkStep(w, outcome))
      && Next(RecordAfter, s1, WorkStep(w, outcome))
         == Worked(s, m, outcome).With(w, if outcome.Failed? then Idle else Replying(m))
  {
    Overwrites(Worked(s, m, outcome), w, Running(m), if outcome.Failed? then Idle else Replying(m));
  }

  lemma HandleStepsLeadThere(s: System, w: int, m: Message, outcome: Outcome, sent: bool, written: bool)
    requires s.PhaseOf(w).Idle? && m !in s.acked
    ensures Possible(RecordAfter, s, HandleSteps(w, m, outcome, sent, written))
    ensures Run(RecordAfter, s, HandleSteps(w, m, outcome, sent, written)) == Handled(s, w, m, outcome, sent, written)
  {
    hide WorkStep, Worked;
    if !m.wellFormed {
      RunOn(RecordAfter, s, Deliver(w, m), []);
    } else {
      WorkStepWorks(s, w, m, outcome);
      var work, worked := WorkStep(w, outcome), Worked(s, m, outcome);
      var s1, s2 := s.With(w, Running(m)), worked.With(w, if outcome.Failed? then Idle else Replying(m));
      if outcome.Failed? {
        RunOn(RecordAfter, s1, work, []);
        RunOn(RecordAfter, s, Deliver(w, m), [work]);
      } else if ReplyLost(m, outcome, sent) {
        Overwrites(worked, w, Replying(m), Idle);
        RunOn(RecordAfter, s2, ReplyFails(w), []);
        RunOn(RecordAfter, s1, work, [ReplyFails(w)]);
        RunOn(RecordAfter, s, Deliver(w, m), [work, ReplyFails(w)]);
      } else {
        RecordedReply(worked, w, m, written);
        RunOn(RecordAfter, s1, work, [Reply(w), Record(w, written)]);
        RunOn(RecordAfter, s, Deliver(w, m), [work, Reply(w), Record(w, written)]);
      }
    }
  }

  lemma RecordedReply(worked: System, w: int, m: Message, written: bool)
    ensures var s2 := worked.With(w, Replying(m)); var steps := [Reply(w), Record(w, written)];
      && Possible(RecordAfter, s2, steps)
      && Run(RecordAfter, s2, steps) == Recorded(worked, m, written).With(w, Acking(m))
  {
    var s2 := worked.With(w, Replying(m));
    var replied := worked.(answered := worked.answered + {m});
    Overwrites(replied, w, Replying(m), Recording(m));
    var s3 := replied.With(w, Recording(m));
    Overwrites(Recorded(worked, m, written), w, Recording(m), Acking(m));
    RunOn(RecordAfter, s3, Record(w, written), []);
    RunOn(RecordAfter, s2, Reply(w), [Record(w, written)]);
  }

  /** What one delivery comes to. A malformed message is acknowledged untouched. Otherwise it is asked for
      again exactly when the handler reports a fault, or a bot is due an answer that could not be sent; and
      when it is not, it took effect or was refused, counts as answered, and is in the inbox if that write
      went through. */
  lemma HandledMeans(s: System, w: int, m: Message, outcome: Outcome, sent: bool, written: bool)
    ensures var after := Handled(s, w, m, outcome, sent, written);
            var again := outcome.Failed? || (m.viaBot && outcome.answer && !sent);
            var effect := outcome.Succeeded? || (outcome.Failed? && outcome.committed);
      && after.consumers == s.consumers[w := if m.wellFormed && again then Idle else Acking(m)]
      && after.acked == s.acked
      && (!m.wellFormed ==> after == s.With(w, Acking(m)))
      && (m.wellFormed ==>
            && after.effects == s.effects + (if effect && m.key !in s.reserved then [m.key] else [])
            && after.reserved == s.reserved + (if effect then {m.key} else {})
            && after.refused == s.refused + (if outcome.RefusedWith? then {m} else {})
            && after.answered == s.answered + (if again then {} else {m})
            && after.inbox == s.inbox + (if again || !written then {} else {m.request}))
  {
  }

  lemma WorkedBeside(s: System, w: int, p: Phase, m: Message, outcome: Outcome)
    ensures Worked(s.With(w, p), m, outcome) == Worked(s, m, outcome).With(w, p)
  {
  }

  class Service {
    var acked: set<Message>
    var effects: seq<string>
    var reserved: set<string>
    var refused: set<Message>
    var answered: set<Message>
    var inbox: set<string>
    var consumers: map<int, Phase>

    constructor ()
      ensures Current() == START
    {
      acked, effects, reserved, refused, answered, inbox, consumers := {}, [], {}, {}, {}, {}, map[];
    }

    function Current(): System
      reads this
    {
      System(acked, effects, reserved, refused, answered, inbox, consumers)
    }

    /** The transaction of the handler: the key reserved with the effect, or neither. */
    method CommitOnce(key: string)
      modifies this`effects, this`reserved
      ensures Current() == Committed(old(Current()), key)
    {
      if key !in reserved {
        effects := effects + [key];
        reserved := reserved + {key};
      }
    }

    /** The command's own handler: its effect, its refusal, or a fault that may have left the effect behind. */
    method Work(m: Message, outcome: Outcome) returns (response: bool)
      modifies this`effects, this`reserved, this`refused
      ensures Current() == Worked(old(Current()), m, outcome)
      ensures response <==> !outcome.Failed? && outcome.answer
    {
      match outcome {
        case Failed(committed) =>
          response := false;
          if committed {
            CommitOnce(m.key);
          }
        case Succeeded(answer) =>
          response := answer;
          CommitOnce(m.key);
        case RefusedWith(answer) =>
          response := answer;
          refused := refused + {m};
      }
    }

    /** One delivery: run, reply, record, acknowledge. False asks the broker to deliver again. */
    method Handle(w: int, m: Message, outcome: Outcome, sent: bool, written: bool) returns (ack: bool)
      requires Current().PhaseOf(w).Idle? && m !in acked
      modifies this
      ensures Possible(RecordAfter, old(Current()), HandleSteps(w, m, outcome, sent, written))
      ensures Current() == Run(RecordAfter, old(Current()), HandleSteps(w, m, outcome, sent, written))
      ensures ack <==> Current().PhaseOf(w).Acking?
      ensures ack <==> !m.wellFormed || !(outcome.Failed? || (m.viaBot && outcome.answer && !sent))
      ensures ack && m.wellFormed ==> Settled(Current(), m) && m in answered
      ensures inbox == old(inbox) + if ack && m.wellFormed && written then {m.request} else {}
    {
      hide Possible, Run, HandleSteps, Next, Enabled, Worked;
      HandleStepsLeadThere(Current(), w, m, outcome, sent, written);
      HandledMeans(Current(), w, m, outcome, sent, written);
      consumers := consumers[w := if m.wellFormed then Running(m) else Acking(m)];
      if !m.wellFormed {
        return true;
      }
      ghost var worked := Worked(old(Current()), m, outcome);
      WorkedBeside(old(Current()), w, Running(m), m, outcome);
      Overwrites(worked, w, Running(m), Idle);
      Overwrites(worked, w, Running(m), Replying(m));
      Overwrites(worked, w, Replying(m), Idle);
      Overwrites(worked, w, Replying(m), Acking(m));
      var response := Work(m, outcome);
      if outcome.Failed? {
        consumers := consumers[w := Idle];
        return false;
      }
      consumers := consumers[w := Replying(m)];
      if response && m.viaBot && !sent {
        consumers := consumers[w := Idle];
        return false;
      }
      answered := answered + {m};
      if written {
        inbox := inbox + {m.request};
      }
      consumers := consumers[w := Acking(m)];
      return true;
    }
  }
}
