/** A bot's notices wait while a direct reply of it is under way: a count of direct sends and a channel closed when the
    count returns to zero. Each step below is one critical section of the lock, or one move of a waiter
    outside it, so any interleaving of goroutines is a sequence of these steps. */
module PriorityLanes {

  /** One call of enterDirect and whether its release has run. */
  datatype Send = Send(bot: string, released: bool)

  /** A call of yield. */
  datatype Waiter =
    | Looking(bot: string)               // about to read the bot's channel
    | Blocked(bot: string, chan: nat)    // waiting for that channel to close
    | Passed                             // returned nil
    | Cancelled                          // its context ended

  datatype Lanes = Lanes(
    direct: map<string, int>,      // the direct sends in progress, by bot
    clear: map<string, nat>,       // the channel to wait on, by bot
    closed: seq<nat>,              // the channels closed, in order
    made: nat,                     // channels made so far
    sends: map<int, Send>,
    waiters: map<int, Waiter>,
    panicked: bool)                // a channel was closed twice, or one that is not there

  const START := Lanes(map[], map[], [], 0, map[], map[], false)

  datatype Step =
    | Enter(send: int, bot: string)
    | Release(send: int)
    | Wait(waiter: int, bot: string)
    | Look(waiter: int)
    | Wake(waiter: int)
    | Cancel(waiter: int)

  predicate Enabled(s: Lanes, step: Step) {
    match step
    case Enter(t, _) => t !in s.sends
    case Release(t) => t in s.sends
    case Wait(w, _) => w !in s.waiters
    case Look(w) => w in s.waiters && s.waiters[w].Looking?
    case Wake(w) => w in s.waiters && s.waiters[w].Blocked? && s.waiters[w].chan in s.closed
    case Cancel(w) => w in s.waiters && s.waiters[w].Blocked?
  }

  function CountOf(s: Lanes, bot: string): int { if bot in s.direct then s.direct[bot] else 0 }

  /** A new channel when the bot had no direct send, and the count raised. */
  function Entered(s: Lanes, t: int, bot: string): Lanes {
    var ready := if CountOf(s, bot) == 0 then s.(clear := s.clear[bot := s.made], made := s.made + 1) else s;
    ready.(direct := s.direct[bot := CountOf(s, bot) + 1], sends := s.sends[t := Send(bot, false)])
  }

  /** The first release lowers the count and, at zero, closes the channel and forgets the bot; a later
      one does nothing. */
  function Released(s: Lanes, t: int): Lanes
    requires t in s.sends
  {
    var bot := s.sends[t].bot;
    if s.sends[t].released then s
    else
      var left := CountOf(s, bot) - 1;
      var once := s.(sends := s.sends[t := Send(bot, true)], direct := s.direct[bot := left]);
      if left != 0 then once
      else if bot !in s.clear || s.clear[bot] in s.closed then once.(panicked := true)
      else once.(closed := s.closed + [s.clear[bot]], clear := s.clear - {bot}, direct := s.direct - {bot})
  }

  function Looked(s: Lanes, w: int): Lanes
    requires w in s.waiters && s.waiters[w].Looking?
  {
    var bot := s.waiters[w].bot;
    s.(waiters := s.waiters[w := if bot in s.clear then Blocked(bot, s.clear[bot]) else Passed])
  }

  function Next(s: Lanes, step: Step): Lanes
    requires Enabled(s, step)
  {
    match step
    case Enter(t, bot) => Entered(s, t, bot)
    case Release(t) => Released(s, t)
    case Wait(w, bot) => s.(waiters := s.waiters[w := Looking(bot)])
    case Look(w) => Looked(s, w)
    case Wake(w) => s.(waiters := s.waiters[w := Looking(s.waiters[w].bot)])
    case Cancel(w) => s.(waiters := s.waiters[w := Cancelled])
  }

  predicate Possible(s: Lanes, steps: seq<Step>)
    decreases |steps|
  {
    steps == [] || (Enabled(s, steps[0]) && Possible(Next(s, steps[0]), steps[1..]))
  }

  function Run(s: Lanes, steps: seq<Step>): Lanes
    requires Possible(s, steps)
    decreases |steps|
  {
    if steps == [] then s else Run(Next(s, steps[0]), steps[1..])
  }

  // ----- what every interleaving keeps

  /** The direct sends of a bot not yet released. */
  function Live(s: Lanes, bot: string): set<int> {
    set t | t in s.sends && s.sends[t] == Send(bot, false)
  }

  ghost predicate CountsAreLive(s: Lanes) {
    && (forall bot :: CountOf(s, bot) == |Live(s, bot)|)
    && (forall bot | bot in s.direct :: s.direct[bot] > 0)
  }

  ghost predicate ChannelsFollowCounts(s: Lanes) {
    && s.clear.Keys == s.direct.Keys
    && (forall bot | bot in s.clear :: s.clear[bot] < s.made && s.clear[bot] !in s.closed)
    && (forall bot, bot' | bot in s.clear && bot' in s.clear && s.clear[bot] == s.clear[bot'] :: bot == bot')
    && (forall c | c in s.closed :: c < s.made)
    && (forall i, j | 0 <= i < j < |s.closed| :: s.closed[i] != s.closed[j])
    && !s.panicked
  }

  /** Whoever is blocked waits on a closed channel, and will wake, or on its bot's current one. */
  ghost predicate NobodyIsStranded(s: Lanes) {
    forall w | w in s.waiters && s.waiters[w].Blocked? ::
      s.waiters[w].chan in s.closed || (s.waiters[w].bot in s.clear && s.clear[s.waiters[w].bot] == s.waiters[w].chan)
  }

  ghost predicate Current(s: Lanes, c: nat) { exists bot :: bot in s.clear && s.clear[bot] == c }

  /** No channel is dropped unclosed: each one made is closed, or some bot's current one. */
  ghost predicate RetiredAreClosed(s: Lanes) {
    forall c: nat | c < s.made :: c in s.closed || Current(s, c)
  }

  ghost predicate Inv(s: Lanes) {
    CountsAreLive(s) && ChannelsFollowCounts(s) && NobodyIsStranded(s) && RetiredAreClosed(s)
  }

  lemma EnterKeepsInv(s: Lanes, t: int, bot: string)
    requires Inv(s) && t !in s.sends
    ensures Inv(Entered(s, t, bot))
  {
    hide CountsAreLive, ChannelsFollowCounts, NobodyIsStranded, RetiredAreClosed;
    EnterKeepsCounts(s, t, bot);
    EnterKeepsChannels(s, t, bot);
    EnterKeepsRetired(s, t, bot);
  }

  lemma EnterKeepsCounts(s: Lanes, t: int, bot: string)
    requires CountsAreLive(s) && t !in s.sends
    ensures CountsAreLive(Entered(s, t, bot))
  {
    var s' := Entered(s, t, bot);
    forall b
      ensures CountOf(s', b) == |Live(s', b)|
    {
      EnteredLive(s, t, bot, b);
      assert CountOf(s, b) == |Live(s, b)|;
      hide Live;
    }
    hide Live;
    assert CountOf(s, bot) == |Live(s, bot)|;
  }

  lemma EnteredLive(s: Lanes, t: int, bot: string, b: string)
    requires t !in s.sends
    ensures |Live(Entered(s, t, bot), b)| == |Live(s, b)| + if b == bot then 1 else 0
  {
    var s' := Entered(s, t, bot);
    if b == bot {
      assert t !in Live(s, b);
      assert Live(s', b) == Live(s, b) + {t};
    } else {
      assert Live(s', b) == Live(s, b);
    }
  }

  lemma EnterKeepsChannels(s: Lanes, t: int, bot: string)
    requires CountsAreLive(s) && ChannelsFollowCounts(s) && NobodyIsStranded(s) && t !in s.sends
    ensures ChannelsFollowCounts(Entered(s, t, bot)) && NobodyIsStranded(Entered(s, t, bot))
  {
    hide Live;
    assert CountOf(s, bot) == 0 <==> bot !in s.clear;
  }

  lemma EnterKeepsRetired(s: Lanes, t: int, bot: string)
    requires CountsAreLive(s) && ChannelsFollowCounts(s) && RetiredAreClosed(s) && t !in s.sends
    ensures RetiredAreClosed(Entered(s, t, bot))
  {
    hide Live;
    var s' := Entered(s, t, bot);
    assert CountOf(s, bot) == 0 <==> bot !in s.clear;
    forall c: nat | c < s'.made
      ensures c in s'.closed || Current(s', c)
    {
      if c < s.made && c !in s.closed {
        var b :| b in s.clear && s.clear[b] == c;
        assert b in s'.clear && s'.clear[b] == c;
      } else if c == s.made {
        assert bot in s'.clear && s'.clear[bot] == c;
      }
    }
  }

  lemma ReleaseKeepsRetired(s: Lanes, t: int)
    requires CountsAreLive(s) && ChannelsFollowCounts(s) && RetiredAreClosed(s) && t in s.sends
    ensures RetiredAreClosed(Released(s, t))
  {
    var s' := Released(s, t);
    if !s.sends[t].released {
      ReleasedOneLess(s, t);
      hide CountsAreLive, Live;
      forall c: nat | c < s'.made
        ensures c in s'.closed || Current(s', c)
      {
        if c !in s.closed {
          var b :| b in s.clear && s.clear[b] == c;
          assert c in s'.closed || (b in s'.clear && s'.clear[b] == c);
        }
      }
    }
  }

  lemma ReleaseKeepsInv(s: Lanes, t: int)
    requires Inv(s) && t in s.sends
    ensures Inv(Released(s, t)) && !Released(s, t).panicked
  {
    hide CountsAreLive, NobodyIsStranded, RetiredAreClosed, Released;
    ReleaseKeepsCounts(s, t);
    ReleaseKeepsChannels(s, t);
    ReleaseKeepsRetired(s, t);
  }

  lemma ReleasedOneLess(s: Lanes, t: int)
    requires CountsAreLive(s) && t in s.sends && !s.sends[t].released
    ensures s.sends[t].bot in s.direct && s.direct[s.sends[t].bot] >= 1
  {
    assert t in Live(s, s.sends[t].bot);
    assert CountOf(s, s.sends[t].bot) >= 1;
  }

  lemma ReleaseKeepsChannels(s: Lanes, t: int)
    requires CountsAreLive(s) && ChannelsFollowCounts(s) && NobodyIsStranded(s) && t in s.sends
    ensures ChannelsFollowCounts(Released(s, t)) && NobodyIsStranded(Released(s, t))
  {
    if !s.sends[t].released {
      ReleasedOneLess(s, t);
      hide CountsAreLive, Live;
    }
  }

  lemma ReleaseKeepsCounts(s: Lanes, t: int)
    requires CountsAreLive(s) && ChannelsFollowCounts(s) && t in s.sends
    ensures CountsAreLive(Released(s, t))
  {
    if !s.sends[t].released {
      ReleasedOneLess(s, t);
      var s', bot := Released(s, t), s.sends[t].bot;
      assert t in Live(s, bot);
      forall b
        ensures CountOf(s', b) == |Live(s', b)|
      {
        if b == bot {
          assert Live(s', b) == Live(s, b) - {t};
        } else {
          assert Live(s', b) == Live(s, b);
        }
      }
    }
  }

  lemma StepKeepsInv(s: Lanes, step: Step)
    requires Inv(s) && Enabled(s, step)
    ensures Inv(Next(s, step))
  {
    match step
    case Enter(t, bot) => EnterKeepsInv(s, t, bot);
    case Release(t) => ReleaseKeepsInv(s, t);
    case _ =>
      var s' := Next(s, step);
      forall b
        ensures Live(s', b) == Live(s, b)
      {
      }
  }

  lemma {:induction false} RunKeepsInv(s: Lanes, steps: seq<Step>)
    requires Inv(s) && Possible(s, steps)
    ensures Inv(Run(s, steps))
    decreases |steps|
  {
    if steps != [] {
      StepKeepsInv(s, steps[0]);
      RunKeepsInv(Next(s, steps[0]), steps[1..]);
    }
  }

  lemma StartKeepsInv()
    ensures Inv(START)
  {
    forall bot
      ensures Live(START, bot) == {}
    {
    }
  }

  /** Under any interleaving of direct sends, repeated releases and waiting notices: a bot has a channel,
      and an open one, exactly while some direct send on it is unreleased; every channel ever made is closed
      exactly when it is no bot's current one, and never twice; and a notice still blocked on an open channel
      is blocked by an unreleased send of its own bot. */
  lemma LanesAreSound(steps: seq<Step>)
    requires Possible(START, steps)
    ensures var s := Run(START, steps);
      && (forall bot :: bot in s.clear <==> Live(s, bot) != {})
      && (forall bot | bot in s.clear :: s.clear[bot] !in s.closed)
      && (forall c: nat | c < s.made :: c in s.closed <==> !Current(s, c))
      && (forall i, j | 0 <= i < j < |s.closed| :: s.closed[i] != s.closed[j])
      && (forall w | w in s.waiters && s.waiters[w].Blocked? && s.waiters[w].chan !in s.closed ::
            Live(s, s.waiters[w].bot) != {})
      && !s.panicked
  {
    StartKeepsInv();
    RunKeepsInv(START, steps);
    var s := Run(START, steps);
    forall bot
      ensures bot in s.clear <==> Live(s, bot) != {}
    {
      assert CountOf(s, bot) == |Live(s, bot)|;
    }
  }

  /** yield returns nil only at an instant when its bot has no unreleased direct send, and never while it
      has one: looking at the channel is looking at the count. */
  lemma PassesOnlyWhenClear(steps: seq<Step>, w: int)
    requires Possible(START, steps) && Enabled(Run(START, steps), Look(w))
    ensures var s := Run(START, steps);
      Next(s, Look(w)).waiters[w].Passed? <==> Live(s, s.waiters[w].bot) == {}
  {
    LanesAreSound(steps);
  }

  /** A notice waiting on its bot's current channel cannot go on: it wakes on a closed one only. */
  lemma NoNoticeWakesEarly(steps: seq<Step>, w: int)
    requires Possible(START, steps)
    requires var s := Run(START, steps);
      && w in s.waiters && s.waiters[w].Blocked?
      && s.waiters[w].bot in s.clear && s.clear[s.waiters[w].bot] == s.waiters[w].chan
    ensures !Enabled(Run(START, steps), Wake(w))
  {
    LanesAreSound(steps);
  }

  /** A notice that went through, or gave up, is done with its lane; and only one that waits gives up. */
  lemma DoneIsDone(s: Lanes, step: Step, w: int)
    requires Enabled(s, step) && w in s.waiters && (s.waiters[w].Passed? || s.waiters[w].Cancelled?)
    ensures w in Next(s, step).waiters && Next(s, step).waiters[w] == s.waiters[w]
  {
  }

  /** A step of a waiter moves that waiter alone: a call of yield starts by looking, a woken one looks
      again, and one whose context ended is out. */
  lemma OneWaiterMoves(s: Lanes, step: Step, w: int)
    requires Enabled(s, step)
    requires step == Wake(w) || step == Cancel(w) || step == Look(w) || (step.Wait? && step.waiter == w)
    ensures var s' := Next(s, step);
      && s' == s.(waiters := s'.waiters) && s'.waiters - {w} == s.waiters - {w} && w in s'.waiters
      && (step.Wait? ==> s'.waiters[w] == Looking(step.bot))
      && (step.Wake? ==> s'.waiters[w] == Looking(s.waiters[w].bot))
      && (step.Cancel? ==> s'.waiters[w].Cancelled?)
  {
  }

  /** A notice on a lane without unreleased sends goes through, whether it is new there or was waiting on
      the channel of an earlier send. */
  lemma ClearLaneLetsThrough(steps: seq<Step>, first: Step, w: int, bot: string)
    requires Possible(START, steps) && Enabled(Run(START, steps), first) && Live(Run(START, steps), bot) == {}
    requires first == Wait(w, bot) || (first == Wake(w) && Run(START, steps).waiters[w].bot == bot)
    ensures var s := Next(Run(START, steps), first);
      Enabled(s, Look(w)) && Next(s, Look(w)).waiters[w].Passed?
  {
    LanesAreSound(steps);
    OneWaiterMoves(Run(START, steps), first, w);
  }

  /** The release that ends the last send closes the bot's channel, and panics exactly when there is none
      to close; no other release closes or panics. */
  lemma OnlyTheLastReleaseCloses(s: Lanes, t: int)
    requires t in s.sends
    ensures var bot, s' := s.sends[t].bot, Released(s, t);
      var last, open := !s.sends[t].released && CountOf(s, bot) == 1, bot in s.clear && s.clear[bot] !in s.closed;
      && (s'.panicked <==> s.panicked || (last && !open))
      && s'.closed == s.closed + (if last && open then [s.clear[bot]] else [])
      && t in s'.sends && s'.sends[t] == Send(bot, true) && s'.sends - {t} == s.sends - {t}
  {
    assert s.closed + [] == s.closed;
  }

  /** When the last send of a bot is released, every notice blocked on that bot may wake. */
  lemma LastReleaseWakesAll(steps: seq<Step>, t: int, w: int)
    requires Possible(START, steps)
    requires var s := Run(START, steps);
      && t in s.sends && Live(s, s.sends[t].bot) == {t}
      && w in s.waiters && s.waiters[w].Blocked? && s.waiters[w].bot == s.sends[t].bot
    ensures Enabled(Next(Run(START, steps), Release(t)), Wake(w))
  {
    var s := Run(START, steps);
    LanesAreSound(steps);
    StartKeepsInv();
    RunKeepsInv(START, steps);
    assert t in Live(s, s.sends[t].bot);
    assert CountOf(s, s.sends[t].bot) == 1;
  }

  // ----- the code under the lock

  class Gate {
    var direct: map<string, int>
    var clear: map<string, nat>
    var closed: seq<nat>
    var made: nat
    var panicked: bool
    var sends: map<int, Send>
    var waiters: map<int, Waiter>

    constructor ()
      ensures Current() == START
    {
      direct, clear, closed, made, panicked := map[], map[], [], 0, false;
      sends, waiters := map[], map[];
    }

    function Current(): Lanes
      reads this
    {
      Lanes(direct, clear, closed, made, sends, waiters, panicked)
    }

    function DirectOn(bot: string): int
      reads this
    {
      if bot in direct then direct[bot] else 0
    }

    method EnterDirect(t: int, bot: string)
      requires Enabled(Current(), Enter(t, bot))
      modifies this
      ensures Current() == Next(old(Current()), Enter(t, bot))
      ensures Inv(old(Current())) ==> Inv(Current())
    {
      hide Inv, Live;
      if Inv(Current()) {
        EnterKeepsInv(Current(), t, bot);
      }
      if DirectOn(bot) == 0 {
        clear := clear[bot := made];
        made := made + 1;
      }
      direct := direct[bot := DirectOn(bot) + 1];
      sends := sends[t := Send(bot, false)];
    }

    /** Closing a channel that is closed, or not there, is a panic. */
    method Close(bot: string)
      modifies this`closed, this`panicked
      ensures bot in clear && clear[bot] !in old(closed) ==>
        closed == old(closed) + [clear[bot]] && panicked == old(panicked)
      ensures !(bot in clear && clear[bot] !in old(closed)) ==> closed == old(closed) && panicked
    {
      if bot in clear && clear[bot] !in closed {
        closed := closed + [clear[bot]];
      } else {
        panicked := true;
      }
    }

    /** The release of one direct send, however often it is called. */
    method ReleaseOnce(t: int)
      requires Enabled(Current(), Release(t))
      modifies this
      ensures Current() == Next(old(Current()), Release(t))
      ensures Inv(old(Current())) ==> Inv(Current()) && !panicked
    {
      hide Inv, Live;
      if Inv(Current()) {
        ReleaseKeepsInv(Current(), t);
      }
      var send := sends[t];
      if !send.released {
        sends := sends[t := Send(send.bot, true)];
        var left := DirectOn(send.bot) - 1;
        direct := direct[send.bot := left];
        if left == 0 {
          var open := send.bot in clear && clear[send.bot] !in closed;
          Close(send.bot);
          if open {
            clear := clear - {send.bot};
            direct := direct - {send.bot};
          }
        }
      }
    }

    /** One turn of yield's loop: nil when the bot has no channel, otherwise the channel to wait for. */
    method LookOnce(w: int) returns (passed: bool)
      requires Enabled(Current(), Look(w))
      modifies this`waiters
      ensures Current() == Next(old(Current()), Look(w))
      ensures Inv(Current()) ==> (passed <==> Live(Current(), old(waiters[w].bot)) == {})
    {
      var bot := waiters[w].bot;
      passed := bot !in clear;
      waiters := waiters[w := if passed then Passed else Blocked(bot, clear[bot])];
      assert Inv(Current()) ==> CountOf(Current(), bot) == |Live(Current(), bot)|;
    }
  }
}
