/** Commands per player in a sliding minute: a recorder that keeps only the last minute and forgets the
    quiet, against one that remembers every command ever sent. Times are nanoseconds. */
module CommandRate {

  const MINUTE := 60_000_000_000
  const CROWD := 10_000

  /** The times after `from`, in order. */
  function After(times: seq<int>, from: int): seq<int> {
    if times == [] then []
    else
      var last := times[|times| - 1];
      var rest := After(times[..|times| - 1], from);
      if last > from then rest + [last] else rest
  }

  predicate OverRate(limit: int, count: nat) { count > limit }

  // ----- the bounded recorder

  datatype Recorder = Recorder(seen: map<string, seq<int>>, flagged: map<string, int>) {
    function Times(player: string): seq<int> { if player in seen then seen[player] else [] }

    /** Flagged within the last minute; a player never flagged was flagged long ago. */
    predicate RecentlyFlagged(player: string, now: int) { player in flagged && now - flagged[player] < MINUTE }

    function Kept(player: string, now: int): seq<int> { After(Times(player), now - MINUTE) + [now] }

    predicate Fires(limit: int, player: string, now: int) {
      OverRate(limit, |Kept(player, now)|) && !RecentlyFlagged(player, now)
    }

    function Counted(limit: int, player: string, now: int): Recorder {
      Recorder(seen[player := Kept(player, now)], if Fires(limit, player, now) then flagged[player := now] else flagged)
    }

    /** Nothing in the minute before `now`. */
    predicate Quiet(player: string, now: int)
      requires player in seen
    {
      seen[player] == [] || seen[player][|seen[player]| - 1] <= now - MINUTE
    }

    function Swept(now: int): Recorder {
      var gone := set p | p in seen && Quiet(p, now);
      Recorder(seen - gone, flagged - gone)
    }
  }

  const FORGETFUL := Recorder(map[], map[])

  // ----- the recorder that forgets nothing

  /** A command, and whether it was flagged. */
  datatype Event = Event(player: string, at: int, fired: bool)

  function TimesOf(h: seq<Event>, player: string): seq<int> {
    if h == [] then []
    else
      var last := h[|h| - 1];
      var rest := TimesOf(h[..|h| - 1], player);
      if last.player == player then rest + [last.at] else rest
  }

  predicate FlaggedSince(h: seq<Event>, player: string, from: int) {
    exists e | e in h :: e.player == player && e.fired && e.at > from
  }

  /** A command runs over when the minute up to it holds too many, and no flag was raised in that minute. */
  predicate ShouldFire(h: seq<Event>, limit: int, player: string, now: int) {
    OverRate(limit, |After(TimesOf(h, player), now - MINUTE)| + 1) && !FlaggedSince(h, player, now - MINUTE)
  }

  // ----- runs

  datatype Op = Command(player: string, now: int) | Sweep(now: int)

  function Log(limit: int, ops: seq<Op>): seq<Event> { Bounded(limit, ops).1 }

  /** The bounded recorder and the decisions it took. */
  function Bounded(limit: int, ops: seq<Op>): (Recorder, seq<Event>) {
    if ops == [] then (FORGETFUL, [])
    else
      var (r, log) := Bounded(limit, ops[..|ops| - 1]);
      match ops[|ops| - 1]
      case Command(p, now) => (r.Counted(limit, p, now), log + [Event(p, now, r.Fires(limit, p, now))])
      case Sweep(now) => (r.Swept(now), log)
  }

  /** What the unbounded recorder decides; it never sweeps. */
  function Remembered(limit: int, ops: seq<Op>): seq<Event> {
    if ops == [] then []
    else
      var h := Remembered(limit, ops[..|ops| - 1]);
      match ops[|ops| - 1]
      case Command(p, now) => h + [Event(p, now, ShouldFire(h, limit, p, now))]
      case Sweep(_) => h
  }

  /** No command is older than anything before it; a sweep may run late, with any earlier reading. */
  ghost predicate ClockRuns(ops: seq<Op>) {
    forall i, j | 0 <= i < j < |ops| && ops[j].Command? :: ops[i].now <= ops[j].now
  }

  // ----- filtering

  lemma {:induction false} AfterKeepsLater(times: seq<int>, from: int, later: int)
    requires from <= later
    ensures After(After(times, from), later) == After(times, later)
    decreases |times|
  {
    if times != [] {
      var n := |times| - 1;
      AfterKeepsLater(times[..n], from, later);
      if times[n] > from {
        var kept := After(times[..n], from);
        assert (kept + [times[n]])[..|kept|] == kept;
      }
    }
  }

  lemma {:induction false} AfterAppends(times: seq<int>, t: int, from: int)
    ensures After(times + [t], from) == if t > from then After(times, from) + [t] else After(times, from)
  {
    assert (times + [t])[..|times|] == times;
  }

  lemma AfterNothing(from: int)
    ensures After([], from) == []
  {
  }

  lemma {:induction false} AfterAllOld(times: seq<int>, from: int)
    requires forall t | t in times :: t <= from
    ensures After(times, from) == []
    decreases |times|
  {
    if times != [] {
      var n := |times| - 1;
      forall t | t in times[..n]
        ensures t in times
      {
      }
      AfterAllOld(times[..n], from);
      assert times[n] in times;
    }
  }

  lemma {:induction false} AfterIsSome(times: seq<int>, from: int)
    ensures forall t :: t in After(times, from) <==> t in times && t > from
    decreases |times|
  {
    if times != [] {
      var n := |times| - 1;
      AfterIsSome(times[..n], from);
      assert times == times[..n] + [times[n]];
    }
  }

  // ----- the simulation

  /** What the bounded recorder knows of one player, up to `clock`. */
  ghost predicate Knows(r: Recorder, h: seq<Event>, clock: int, p: string) {
    var mine := TimesOf(h, p);
    && (forall t | t in mine :: t <= clock)
    && (p in r.seen ==>
          && mine != []
          && (forall t | t in mine :: t <= mine[|mine| - 1])
          && r.seen[p] == After(mine, mine[|mine| - 1] - MINUTE))
    && (p !in r.seen ==> forall t | t in mine :: t <= clock - MINUTE)
    && KnowsFlags(r, h, clock, p)
    && (p in r.flagged ==> p in r.seen)
  }

  /** The flag kept is the player's last; a flag not kept is a minute old. */
  ghost predicate KnowsFlags(r: Recorder, h: seq<Event>, clock: int, p: string) {
    && (p in r.flagged ==>
          && Event(p, r.flagged[p], true) in h
          && forall e | e in h && e.player == p && e.fired :: e.at <= r.flagged[p])
    && (p !in r.flagged ==> forall e | e in h && e.player == p && e.fired :: e.at <= clock - MINUTE)
  }

  lemma FlagsAgree(r: Recorder, h: seq<Event>, clock: int, p: string, now: int)
    requires KnowsFlags(r, h, clock, p) && clock <= now
    ensures r.RecentlyFlagged(p, now) <==> FlaggedSince(h, p, now - MINUTE)
  {
    if p in r.flagged && r.flagged[p] > now - MINUTE {
      assert Event(p, r.flagged[p], true) in h;
    }
  }

  lemma KnowsTheMinute(r: Recorder, h: seq<Event>, clock: int, p: string, now: int)
    requires Knows(r, h, clock, p) && clock <= now
    ensures After(r.Times(p), now - MINUTE) == After(TimesOf(h, p), now - MINUTE)
  {
    var mine := TimesOf(h, p);
    if p in r.seen {
      assert mine[|mine| - 1] in mine;
      AfterKeepsLater(mine, mine[|mine| - 1] - MINUTE, now - MINUTE);
    } else {
      AfterAllOld(mine, now - MINUTE);
    }
  }

  /** Both recorders take the same decision. */
  lemma SameDecision(r: Recorder, h: seq<Event>, limit: int, clock: int, player: string, now: int)
    requires Knows(r, h, clock, player) && clock <= now
    ensures r.Fires(limit, player, now) == ShouldFire(h, limit, player, now)
  {
    KnowsTheMinute(r, h, clock, player, now);
    FlagsAgree(r, h, clock, player, now);
  }

  lemma CommandKeepsFlags(r: Recorder, h: seq<Event>, limit: int, clock: int, e: Event, p: string)
    requires KnowsFlags(r, h, clock, p) && clock <= e.at && forall t | t in TimesOf(h, p) :: t <= clock
    requires e.fired == r.Fires(limit, e.player, e.at)
    ensures KnowsFlags(r.Counted(limit, e.player, e.at), h + [e], e.at, p)
  {
    hide Recorder.Kept, Recorder.Fires;
    FlagEventsTimely(h, p, clock);
  }

  lemma CommandKeepsTimes(r: Recorder, h: seq<Event>, limit: int, clock: int, e: Event, p: string)
    requires Knows(r, h, clock, p) && clock <= e.at
    ensures var r', mine := r.Counted(limit, e.player, e.at), TimesOf(h + [e], p);
      && (forall t | t in mine :: t <= e.at)
      && (p in r'.seen ==>
            && mine != []
            && (forall t | t in mine :: t <= mine[|mine| - 1])
            && r'.seen[p] == After(mine, mine[|mine| - 1] - MINUTE))
      && (p !in r'.seen ==> forall t | t in mine :: t <= e.at - MINUTE)
  {
    hide Recorder.Fires, KnowsFlags;
    assert (h + [e])[..|h|] == h;
    if p == e.player {
      KnowsTheMinute(r, h, clock, p, e.at);
      var mine := TimesOf(h, p);
      assert TimesOf(h + [e], p) == mine + [e.at];
      AfterAppends(mine, e.at, e.at - MINUTE);
    }
  }

  lemma CommandKeepsKnowing(r: Recorder, h: seq<Event>, limit: int, clock: int, e: Event, p: string)
    requires Knows(r, h, clock, p) && clock <= e.at && e.fired == r.Fires(limit, e.player, e.at)
    ensures Knows(r.Counted(limit, e.player, e.at), h + [e], e.at, p)
  {
    hide KnowsFlags;
    CommandKeepsFlags(r, h, limit, clock, e, p);
    CommandKeepsTimes(r, h, limit, clock, e, p);
  }

  lemma FlagEventsTimely(h: seq<Event>, p: string, clock: int)
    requires forall t | t in TimesOf(h, p) :: t <= clock
    ensures forall e | e in h && e.player == p :: e.at <= clock
  {
    forall e | e in h && e.player == p
      ensures e.at <= clock
    {
      TimeOfEvent(h, e);
    }
  }

  lemma {:induction false} TimeOfEvent(h: seq<Event>, e: Event)
    requires e in h
    ensures e.at in TimesOf(h, e.player)
    decreases |h|
  {
    var n := |h| - 1;
    if e != h[n] {
      assert h == h[..n] + [h[n]];
      TimeOfEvent(h[..n], e);
    }
  }

  /** Only players whose every command is a minute old are forgotten, and with them only old flags. */
  lemma SweepKeepsKnowing(r: Recorder, h: seq<Event>, clock: int, at: int, p: string)
    requires Knows(r, h, clock, p) && at <= clock
    ensures Knows(r.Swept(at), h, clock, p)
  {
    if p in r.seen && r.Quiet(p, at) {
      var mine := TimesOf(h, p);
      AfterIsSome(mine, mine[|mine| - 1] - MINUTE);
      assert mine[|mine| - 1] in r.seen[p];
      var kept := r.seen[p];
      assert kept[|kept| - 1] <= at - MINUTE;
      LastKept(mine);
      FlagEventsTimely(h, p, at - MINUTE);
    }
  }

  lemma LastKept(mine: seq<int>)
    requires mine != []
    ensures var kept := After(mine, mine[|mine| - 1] - MINUTE);
      kept != [] && kept[|kept| - 1] == mine[|mine| - 1]
  {
  }

  lemma ClockMoves(r: Recorder, h: seq<Event>, clock: int, later: int, p: string)
    requires Knows(r, h, clock, p) && clock <= later
    ensures Knows(r, h, later, p)
  {
  }

  lemma {:induction false} BoundedKnows(limit: int, ops: seq<Op>, clock: int, p: string)
    requires ClockRuns(ops) && forall op | op in ops :: op.now <= clock
    ensures Log(limit, ops) == Remembered(limit, ops)
    ensures Knows(Bounded(limit, ops).0, Remembered(limit, ops), clock, p)
    decreases |ops|
  {
    if ops != [] {
      var n := |ops| - 1;
      var before := ops[..n];
      forall op | op in before
        ensures op.now <= clock && (ops[n].Command? ==> op.now <= ops[n].now)
      {
        var i :| 0 <= i < n && before[i] == op;
        assert op == ops[i];
      }
      assert ops[n] in ops;
      match ops[n]
      case Command(player, now) =>
        BoundedKnows(limit, before, now, p);
        BoundedKnows(limit, before, now, player);
        var r, h := Bounded(limit, before).0, Remembered(limit, before);
        SameDecision(r, h, limit, now, player, now);
        CommandKeepsKnowing(r, h, limit, now, Event(player, now, r.Fires(limit, player, now)), p);
        ClockMoves(Bounded(limit, ops).0, Remembered(limit, ops), now, clock, p);
      case Sweep(now) =>
        BoundedKnows(limit, before, clock, p);
        SweepKeepsKnowing(Bounded(limit, before).0, Remembered(limit, before), clock, now, p);
    }
  }

  /** With a clock that never runs back, forgetting changes no decision: the bounded recorder, swept at
      any moments, flags exactly the commands the one that remembers everything flags. */
  lemma ForgettingChangesNothing(limit: int, ops: seq<Op>)
    requires ClockRuns(ops)
    ensures Log(limit, ops) == Remembered(limit, ops)
  {
    BoundedKnows(limit, ops, Latest(ops), "");
  }

  // ----- what the flags mean

  const SECOND := 1_000_000_000

  /** The positions of a player's commands after some moment. */
  function Since(h: seq<Event>, player: string, from: int): set<int> {
    set i | 0 <= i < |h| && h[i].player == player && h[i].at > from
  }

  lemma OneMorePosition(h: seq<Event>, player: string, from: int)
    requires h != []
    ensures var n := |h| - 1;
      |Since(h, player, from)|
      == |Since(h[..n], player, from)| + if h[n].player == player && h[n].at > from then 1 else 0
  {
    var n := |h| - 1;
    var before := Since(h[..n], player, from);
    assert n !in before;
    assert Since(h, player, from) == before + if h[n].player == player && h[n].at > from then {n} else {};
  }

  lemma {:induction false} CountedByPosition(h: seq<Event>, player: string, from: int)
    ensures |Since(h, player, from)| == |After(TimesOf(h, player), from)|
    decreases |h|
  {
    if h == [] {
      assert Since(h, player, from) == {};
    } else {
      var n := |h| - 1;
      CountedByPosition(h[..n], player, from);
      if h[n].player == player {
        AfterAppends(TimesOf(h[..n], player), h[n].at, from);
      }
      OneMorePosition(h, player, from);
      hide After, Since;
    }
  }

  lemma {:induction false} DecidedByWhatCameBefore(limit: int, ops: seq<Op>, i: nat)
    requires i < |Remembered(limit, ops)|
    ensures var h := Remembered(limit, ops); h[i].fired == ShouldFire(h[..i], limit, h[i].player, h[i].at)
    decreases |ops|
  {
    var n := |ops| - 1;
    var before, h := Remembered(limit, ops[..n]), Remembered(limit, ops);
    if i < |before| {
      DecidedByWhatCameBefore(limit, ops[..n], i);
      assert h[i] == before[i] && h[..i] == before[..i];
    } else {
      assert h[..i] == before;
    }
  }

  /** A command is flagged exactly when, with it, its player sent more than the limit in the sixty seconds up to
      it, and none of the commands before it was flagged in those. */
  lemma FlagsMeanTooMany(limit: int, ops: seq<Op>, i: nat)
    requires ClockRuns(ops) && i < |Log(limit, ops)|
    ensures var log := Log(limit, ops); var player, from := log[i].player, log[i].at - 60 * SECOND;
      log[i].fired <==>
        && |set j | 0 <= j <= i && log[j].player == player && log[j].at > from| > limit
        && !exists j | 0 <= j < i :: log[j].player == player && log[j].fired && log[j].at > from
  {
    hide After, TimesOf, Bounded, Remembered, ClockRuns;
    ForgettingChangesNothing(limit, ops);
    DecidedByWhatCameBefore(limit, ops, i);
    var log := Log(limit, ops);
    var player, from, before := log[i].player, log[i].at - 60 * SECOND, log[..i];
    CountedByPosition(before, player, from);
    assert (set j | 0 <= j <= i && log[j].player == player && log[j].at > from) == Since(before, player, from) + {i};
    if j :| 0 <= j < i && log[j].player == player && log[j].fired && log[j].at > from {
      assert before[j] == log[j] && before[j] in before;
    }
    if FlaggedSince(before, player, from) {
      var e :| e in before && e.player == player && e.fired && e.at > from;
      var j :| 0 <= j < |before| && before[j] == e;
      assert log[j] == e;
    }
  }

  /** After a sweep at the latest moment exactly the players of the last minute are remembered, and flags of
      nobody else. */
  lemma SweepsForgetTheQuiet(limit: int, ops: seq<Op>, now: int, p: string)
    requires ClockRuns(ops) && forall op | op in ops :: op.now <= now
    ensures var r, log := Bounded(limit, ops + [Sweep(now)]).0, Log(limit, ops);
      && (p in r.seen <==> exists e :: e in log && e.player == p && e.at > now - 60 * SECOND)
      && (p in r.flagged ==> p in r.seen)
  {
    assert (ops + [Sweep(now)])[..|ops|] == ops;
    BoundedKnows(limit, ops, now, p);
    var before, h := Bounded(limit, ops).0, Remembered(limit, ops);
    var mine := TimesOf(h, p);
    if p in before.seen {
      LastKept(mine);
      EventOfTime(h, p, mine[|mine| - 1]);
      FlagEventsTimely(h, p, mine[|mine| - 1]);
    } else {
      FlagEventsTimely(h, p, now - MINUTE);
    }
  }

  lemma {:induction false} EventOfTime(h: seq<Event>, p: string, t: int)
    requires t in TimesOf(h, p)
    ensures exists e :: e in h && e.player == p && e.at == t
    decreases |h|
  {
    var n := |h| - 1;
    if h[n].player == p && h[n].at == t {
      assert h[n] in h;
    } else {
      EventOfTime(h[..n], p, t);
      var e :| e in h[..n] && e.player == p && e.at == t;
      assert e in h;
    }
  }

  function Latest(ops: seq<Op>): (latest: int)
    ensures forall op | op in ops :: op.now <= latest
  {
    if ops == [] then 0
    else
      var rest := Latest(ops[..|ops| - 1]);
      assert ops == ops[..|ops| - 1] + [ops[|ops| - 1]];
      if rest < ops[|ops| - 1].now then ops[|ops| - 1].now else rest
  }

  function CommandsOnly(ops: seq<Op>): seq<Op> {
    if ops == [] then []
    else
      var rest := CommandsOnly(ops[..|ops| - 1]);
      if ops[|ops| - 1].Command? then rest + [ops[|ops| - 1]] else rest
  }

  lemma {:induction false} SweepsAreForgotten(limit: int, ops: seq<Op>)
    ensures Remembered(limit, CommandsOnly(ops)) == Remembered(limit, ops)
    decreases |ops|
  {
    if ops != [] {
      var n := |ops| - 1;
      SweepsAreForgotten(limit, ops[..n]);
      if ops[n].Command? {
        var rest := CommandsOnly(ops[..n]);
        assert (rest + [ops[n]])[..|rest|] == rest;
      }
    }
  }

  lemma {:induction false} CommandsKeepTheClock(ops: seq<Op>)
    requires ClockRuns(ops)
    ensures ClockRuns(CommandsOnly(ops)) && forall op | op in CommandsOnly(ops) :: op in ops
    decreases |ops|
  {
    if ops != [] {
      var n := |ops| - 1;
      CommandsKeepTheClock(ops[..n]);
      var rest := CommandsOnly(ops[..n]);
      forall op | op in rest
        ensures op in ops && (ops[n].Command? ==> op.now <= ops[n].now)
      {
        var i :| 0 <= i < n && ops[..n][i] == op;
        assert op == ops[i];
      }
    }
  }

  /** Sweeping at any moments changes no decision, now or later. */
  lemma SweepsChangeNothing(limit: int, ops: seq<Op>)
    requires ClockRuns(ops)
    ensures Log(limit, ops) == Log(limit, CommandsOnly(ops))
  {
    ForgettingChangesNothing(limit, ops);
    SweepsAreForgotten(limit, ops);
    CommandsKeepTheClock(ops);
    ForgettingChangesNothing(limit, CommandsOnly(ops));
  }

  /** Right after a command the kept slice is the player's commands of the last minute, and nothing else. */
  lemma KeptIsTheLastMinute(limit: int, ops: seq<Op>, player: string, now: int)
    requires ClockRuns(ops + [Command(player, now)])
    ensures var r, h := Bounded(limit, ops + [Command(player, now)]).0, Remembered(limit, ops + [Command(player, now)]);
      player in r.seen && r.seen[player] == After(TimesOf(h, player), now - MINUTE)
  {
    var all := ops + [Command(player, now)];
    assert all[..|ops|] == ops;
    forall op | op in all
      ensures op.now <= now
    {
      var i :| 0 <= i < |all| && all[i] == op;
      assert all[|ops|].Command?;
    }
    BoundedKnows(limit, all, now, player);
    var mine := TimesOf(Remembered(limit, all), player);
    var h := Remembered(limit, ops);
    assert (h + [Event(player, now, ShouldFire(h, limit, player, now))])[..|h|] == h;
    assert mine[|mine| - 1] == now;
  }

  /** Flags of one player are at least a minute apart. */
  lemma {:induction false} FlagsAreAMinuteApart(limit: int, ops: seq<Op>, i: nat, j: nat)
    requires ClockRuns(ops) && i < j < |Log(limit, ops)|
    requires var log := Log(limit, ops); log[i].player == log[j].player && log[i].fired && log[j].fired
    ensures Log(limit, ops)[j].at - Log(limit, ops)[i].at >= MINUTE
    decreases |ops|
  {
    var n := |ops| - 1;
    var before := ops[..n];
    ForgettingChangesNothing(limit, ops);
    ForgettingChangesNothing(limit, before);
    var h, log := Remembered(limit, before), Remembered(limit, ops);
    if j < |h| {
      assert log[i] == h[i] && log[j] == h[j];
      FlagsAreAMinuteApart(limit, before, i, j);
    } else {
      var now := ops[n].now;
      assert log[i] == h[i];
      assert h[i] in h;
      assert !FlaggedSince(h, log[j].player, now - MINUTE);
    }
  }

  // ----- the code

  class CommandWatch {
    const limit: int
    var seen: map<string, seq<int>>
    var flagged: map<string, int>

    constructor (limit: int)
      ensures Current() == FORGETFUL && this.limit == limit
    {
      this.limit := limit;
      seen, flagged := map[], map[];
    }

    function Current(): Recorder
      reads this
    {
      Recorder(seen, flagged)
    }

    /** Moves the times after `from` to the front of the slice, over the ones that are not. */
    static method KeepAfter(times: array<int>, from: int) returns (kept: nat)
      modifies times
      ensures kept <= times.Length && times[..kept] == After(old(times[..]), from)
    {
      hide After;
      kept := 0;
      ghost var before := times[..];
      AfterNothing(from);
      for k := 0 to times.Length
        invariant kept <= k
        invariant times[..kept] == After(before[..k], from)
        invariant times[k..] == before[k..]
      {
        assert times[k] == before[k] by { assert times[k..][0] == before[k..][0]; }
        assert times[k + 1..] == before[k + 1..] by { assert times[k..][1..] == before[k..][1..]; }
        assert before[..k + 1] == before[..k] + [before[k]];
        AfterAppends(before[..k], before[k], from);
        if times[k] > from {
          ghost var done, rest := times[..kept], times[k + 1..];
          times[kept] := times[k];
          assert times[..kept] == done && times[k + 1..] == rest;
          kept := kept + 1;
          assert times[..kept] == done + [before[k]];
        }
      }
      assert before[..times.Length] == before;
    }

    /** The player's slice with `now` appended; the score over the limit; whether to flag; and whether a
        newcomer has pushed the map past its bound. */
    method Count(player: string, now: int) returns (score: int, fire: bool, crowded: bool)
      modifies this
      ensures Current() == old(Current()).Counted(limit, player, now)
      ensures fire == old(Current()).Fires(limit, player, now)
      ensures var over := |old(Current()).Kept(player, now)| - limit; score == if over > 0 then over else 0
      ensures crowded <==> |seen[player]| == 1 && |seen| > 10_000
    {
      hide After;
      var from := now - MINUTE;
      var past := if player in seen then seen[player] else [];
      var times := new int[|past|](i requires 0 <= i < |past| => past[i]);
      assert times[..] == past;
      var n := KeepAfter(times, from);
      var kept := times[..n] + [now];
      assert kept == old(Current()).Kept(player, now);
      seen := seen[player := kept];
      crowded := |kept| == 1 && |seen| > CROWD;
      score := |kept| - limit;
      if |kept| <= limit {
        return 0, false, crowded;
      }
      if player in flagged && now - flagged[player] < MINUTE {
        return score, false, crowded;
      }
      flagged := flagged[player := now];
      fire := true;
    }

    /** Forgets every quiet player: the slice, and the flag with it. */
    method DropQuiet(now: int)
      modifies this
      ensures Current() == old(Current()).Swept(now)
    {
      ghost var before := Current();
      var ids := seen.Keys;
      ghost var gone: set<string> := {};
      while ids != {}
        invariant ids <= before.seen.Keys && gone <= before.seen.Keys - ids
        invariant gone == set p | p in before.seen && p !in ids && before.Quiet(p, now)
        invariant seen == before.seen - gone && flagged == before.flagged - gone
        decreases ids
      {
        var id :| id in ids;
        ids := ids - {id};
        var times := seen[id];
        if times == [] || times[|times| - 1] <= now - MINUTE {
          gone := gone + {id};
          seen := seen - {id};
          flagged := flagged - {id};
        }
      }
      assert gone == set p | p in before.seen && before.Quiet(p, now);
    }

    /** One command of a named player: counted, and the quiet forgotten when the map is crowded. */
    method Note(player: string, now: int) returns (fire: bool)
      modifies this
      ensures player == "" ==> Current() == old(Current()) && !fire
      ensures player != "" ==>
        && fire == old(Current()).Fires(limit, player, now)
        && var counted := old(Current()).Counted(limit, player, now);
           Current() == if |counted.seen[player]| == 1 && |counted.seen| > 10_000 then counted.Swept(now) else counted
    {
      if player == "" {
        return false;
      }
      var score, crowded;
      score, fire, crowded := Count(player, now);
      if crowded {
        DropQuiet(now);
      }
    }
  }
}
