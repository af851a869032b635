/**
 The daily cap while rounds overlap: a round counts the deliveries of the day when it begins and sends later,
 under the lock of its own row alone.
 */
module PushCap {
  import opened Wrappers
  import opened Push

  /** A round under way: its delivery, and what it read when it began. */
  datatype Open = Open(i: nat, round: Round, devices: seq<nat>, capSeen: bool)

  /** One recipient's deliveries, the rounds under way by worker, and the local day. */
  datatype System = System(mail: State, rounds: map<nat, Open>, today: int)

  const START := System(INITIAL, map[], 0)

  datatype Move =
    | Change(step: Step)
    | Begin(w: nat, i: nat, now: int, eligible: bool, answers: map<nat, Answer>, devices: seq<nat>)
    | Finish(w: nat)
    | Midnight

  /** The devices active now, in some order. */
  predicate ListsActive(s: State, devices: seq<nat>) {
    (forall x :: x in devices ==> Active(s, x)) && (forall x :: x in s.active && s.active[x] ==> x in devices)
  }

  /** The row is unlocked and has something left to do. */
  predicate MayBegin(y: System, w: nat, i: nat, devices: seq<nat>) {
    && w !in y.rounds && i < |y.mail.deliveries| && y.mail.deliveries[i].status != Sent && ListsActive(y.mail, devices)
    && forall v :: v in y.rounds ==> y.rounds[v].i != i
  }

  /** The step with which the round of worker w ends. */
  function Ending(y: System, w: nat): Step
    requires w in y.rounds
  {
    var o := y.rounds[w];
    RoundStep(o.i, o.round.(today := y.today), o.devices, o.capSeen)
  }

  function Advance(y: System, move: Move): System {
    match move
    case Change(step) => if step.RoundStep? then y else y.(mail := Next(y.mail, step))
    case Begin(w, i, now, eligible, answers, devices) =>
      if !MayBegin(y, w, i, devices) then y
      else
        var seen := SentToday(y.mail.deliveries, y.today) >= DAILY_CAP;
        y.(rounds := y.rounds[w := Open(i, Round(now, y.today, eligible, answers), devices, seen)])
    case Finish(w) => if w !in y.rounds then y else y.(mail := Next(y.mail, Ending(y, w)), rounds := y.rounds - {w})
    case Midnight => y.(today := y.today + 1)
  }

  function Evolve(moves: seq<Move>): System {
    if moves == [] then START else Advance(Evolve(moves[..|moves| - 1]), moves[|moves| - 1])
  }

  // ---------------------------------------------------------------- overlapping rounds are rounds

  /** What the moves do to the deliveries, as steps. */
  function StepsOf(moves: seq<Move>): seq<Step> {
    if moves == [] then []
    else
      var init, last := moves[..|moves| - 1], moves[|moves| - 1];
      StepsOf(init)
      + (match last
         case Change(step) => if step.RoundStep? then [] else [step]
         case Finish(w) => if w in Evolve(init).rounds then [Ending(Evolve(init), w)] else []
         case _ => [])
  }

  /** So all that holds of runs of deliveries holds however their rounds overlap. */
  lemma {:induction false} MailRuns(moves: seq<Move>)
    ensures Evolve(moves).mail == Run(INITIAL, StepsOf(moves))
  {
    hide Next, MayBegin, SentToday, Ending;
    if moves != [] {
      var init := moves[..|moves| - 1];
      MailRuns(init);
      var before := StepsOf(init);
      forall step ensures Run(INITIAL, before + [step]) == Next(Run(INITIAL, before), step) {
        assert (before + [step])[..|before|] == before;
      }
      assert before + [] == before;
    }
  }

  /** How many rounds were under way at once, at most. */
  function Widest(moves: seq<Move>): nat {
    if moves == [] then 0
    else
      var n, m := |Evolve(moves).rounds|, Widest(moves[..|moves| - 1]);
      if n > m then n else m
  }

  // ---------------------------------------------------------------- the bound

  /** Workers that have seen room under the cap. */
  ghost function Proceeding(y: System): set<nat> { set w | w in y.rounds && !y.rounds[w].capSeen }

  ghost predicate CapOk(y: System, width: nat) {
    && SentToday(y.mail.deliveries, y.today) + |Proceeding(y)| <= DAILY_CAP - 1 + width
    && (forall day :: day < y.today ==> SentToday(y.mail.deliveries, day) <= DAILY_CAP - 1 + width)
    && (forall day :: day > y.today ==> SentToday(y.mail.deliveries, day) == 0)
  }

  lemma ProceedingOpen(y: System)
    ensures |Proceeding(y)| <= |y.rounds|
  {
    SubsetSize(Proceeding(y), y.rounds.Keys);
  }

  lemma {:induction false} SubsetSize(a: set<nat>, b: set<nat>)
    requires a <= b
    ensures |a| <= |b|
  {
    if x :| x in a { SubsetSize(a - {x}, b - {x}); }
  }

  lemma BeginKeeps(y: System, move: Move, width: nat)
    requires CapOk(y, width) && move.Begin? && |Advance(y, move).rounds| <= width
    ensures CapOk(Advance(y, move), width)
  {
    hide SentToday;
    var z := Advance(y, move);
    if z != y {
      if SentToday(y.mail.deliveries, y.today) >= DAILY_CAP {
        assert Proceeding(z) == Proceeding(y);
      } else {
        ProceedingOpen(z);
      }
    }
  }

  /** A finishing round adds one to the count of the present day at most, and nothing if it saw the cap. */
  lemma EndingCounts(y: System, w: nat, day: int)
    requires w in y.rounds
    ensures var n, m := SentToday(y.mail.deliveries, day), SentToday(Next(y.mail, Ending(y, w)).deliveries, day);
            m <= n + (if day == y.today && !y.rounds[w].capSeen then 1 else 0)
  {
    hide SentToday, FanOut, Backoff;
    var o := y.rounds[w];
    if o.i < |y.mail.deliveries| {
      SentTodayUpdate(y.mail.deliveries, o.i, Next(y.mail, Ending(y, w)).deliveries[o.i], day);
    }
  }

  lemma FinishKeeps(y: System, w: nat, width: nat)
    requires CapOk(y, width)
    ensures CapOk(Advance(y, Finish(w)), width)
  {
    hide SentToday, Ending, Next;
    if w in y.rounds {
      var z := Advance(y, Finish(w));
      assert Proceeding(z) == Proceeding(y) - {w};
      forall day
        ensures SentToday(z.mail.deliveries, day)
             <= SentToday(y.mail.deliveries, day) + (if day == y.today && !y.rounds[w].capSeen then 1 else 0)
      {
        EndingCounts(y, w, day);
      }
    }
  }

  lemma ChangeCounts(s: State, step: Step, day: int)
    requires !step.RoundStep?
    ensures SentToday(Next(s, step).deliveries, day) == SentToday(s.deliveries, day)
  {
    if step.Enqueue? { assert Next(s, step).deliveries[..|s.deliveries|] == s.deliveries; }
  }

  lemma ChangeKeeps(y: System, step: Step, width: nat)
    requires CapOk(y, width)
    ensures CapOk(Advance(y, Change(step)), width)
  {
    hide SentToday, Next;
    var z := Advance(y, Change(step));
    assert Proceeding(z) == Proceeding(y);
    forall day ensures SentToday(z.mail.deliveries, day) == SentToday(y.mail.deliveries, day) {
      if !step.RoundStep? { ChangeCounts(y.mail, step, day); }
    }
  }

  lemma MidnightKeeps(y: System, width: nat)
    requires CapOk(y, width) && |y.rounds| <= width
    ensures CapOk(Advance(y, Midnight), width)
  {
    hide SentToday;
    assert Proceeding(Advance(y, Midnight)) == Proceeding(y);
    ProceedingOpen(y);
  }

  lemma {:induction false} EvolvesWithin(moves: seq<Move>, width: nat)
    requires Widest(moves) <= width
    ensures CapOk(Evolve(moves), width)
  {
    if moves == [] {
      assert Proceeding(START) == {};
    } else {
      var y, move := Evolve(moves[..|moves| - 1]), moves[|moves| - 1];
      EvolvesWithin(moves[..|moves| - 1], width);
      NotWider(moves[..|moves| - 1]);
      hide CapOk, Advance;
      match move {
        case Change(step) => ChangeKeeps(y, step, width);
        case Begin(w, i, now, eligible, answers, devices) => BeginKeeps(y, move, width);
        case Finish(w) => FinishKeeps(y, w, width);
        case Midnight => MidnightKeeps(y, width);
      }
    }
  }

  lemma NotWider(moves: seq<Move>)
    ensures |Evolve(moves).rounds| <= Widest(moves)
  {
    hide Advance;
  }

  /** On no day do more deliveries of the capped category get through than the cap, and one more for each further round under way at once. */
  lemma DailyCapOverlapping(moves: seq<Move>, day: int)
    ensures |Through(Evolve(moves).mail.deliveries, day)| <= 9 + Widest(moves)
  {
    EvolvesWithin(moves, Widest(moves));
    CountsThrough(Evolve(moves).mail.deliveries, day);
  }

  /**
   A round begins exactly on an unsent delivery that no other worker holds, with exactly the devices active at that moment; and it is held
   back by the cap exactly when ten deliveries have got through today.
   */
  lemma BeginsExactly(moves: seq<Move>, move: Move)
    requires move.Begin?
    ensures var y, z := Evolve(moves), Evolve(moves + [move]);
            var may :=
              && move.w !in y.rounds && move.i < |y.mail.deliveries| && y.mail.deliveries[move.i].status != Sent
              && (forall v :: v in y.rounds ==> y.rounds[v].i != move.i)
              && (forall x :: x in move.devices <==> x in y.mail.active && y.mail.active[x]);
            && z.mail == y.mail && z.today == y.today
            && (!may ==> z.rounds == y.rounds)
            && (may ==> z.rounds == y.rounds[move.w := Open(move.i, Round(move.now, y.today, move.eligible, move.answers), move.devices,
                                                            |Through(y.mail.deliveries, y.today)| >= 10)])
  {
    CountsThrough(Evolve(moves).mail.deliveries, Evolve(moves).today);
    assert (moves + [move])[..|moves|] == moves;
    hide SentToday;
  }

  /** Rounds of one recipient one at a time: at most ten a day. */
  lemma DailyCapHolds(moves: seq<Move>, day: int)
    requires Widest(moves) <= 1
    ensures |Through(Evolve(moves).mail.deliveries, day)| <= 10
  {
    DailyCapOverlapping(moves, day);
  }

  // ---------------------------------------------------------------- and it is reached

  const FRESH := Delivery(Pending, 0, None, Clean, {}, 0, true)
  const DELIVERED := Delivery(Sent, 1, None, Clean, {0}, 0, true)
  const OPENED := Round(0, 0, true, map[0 := Accepted])

  /** The first `sent` of n deliveries are through, and the rounds of the next are under way, each by the worker of its number. */
  ghost predicate Stage(y: System, n: nat, sent: nat, begun: nat) {
    && y.today == 0 && y.mail.active == map[0 := true] && sent <= begun <= n == |y.mail.deliveries|
    && (forall k :: 0 <= k < n ==> y.mail.deliveries[k] == if k < sent then DELIVERED else FRESH)
    && (forall w :: w in y.rounds <==> sent <= w < begun)
    && (forall w :: w in y.rounds ==> y.rounds[w] == Open(w, OPENED, [0], false))
  }

  lemma {:induction false} CountsPrefix(ds: seq<Delivery>, sent: nat)
    requires sent <= |ds| && forall k :: 0 <= k < |ds| ==> ds[k] == if k < sent then DELIVERED else FRESH
    ensures SentToday(ds, 0) == sent
  {
    if ds != [] {
      var n := |ds| - 1;
      CountsPrefix(ds[..n], if sent == |ds| then n else sent);
    }
  }

  lemma OneMove(moves: seq<Move>, move: Move)
    ensures Evolve(moves + [move]) == Advance(Evolve(moves), move)
    ensures Widest(moves + [move])
         == var n, m := |Advance(Evolve(moves), move).rounds|, Widest(moves); if n > m then n else m
  {
    hide Advance;
    assert (moves + [move])[..|moves|] == moves;
  }

  lemma {:induction false} OpenRounds(rounds: map<nat, Open>, sent: nat, begun: nat)
    requires sent <= begun && forall w :: w in rounds <==> sent <= w < begun
    ensures |rounds| == begun - sent
    decreases begun
  {
    if sent == begun {
      assert rounds == map[];
    } else {
      var fewer := rounds - {begun - 1};
      OpenRounds(fewer, sent, begun - 1);
      assert rounds.Keys == fewer.Keys + {begun - 1};
    }
  }

  lemma StageBegins(y: System, n: nat, sent: nat, begun: nat)
    requires Stage(y, n, sent, begun) && sent < DAILY_CAP && begun < n
    ensures Stage(Advance(y, Begin(begun, begun, 0, true, map[0 := Accepted], [0])), n, sent, begun + 1)
  {
    CountsPrefix(y.mail.deliveries, sent);
  }

  lemma StageEnds(y: System, n: nat, sent: nat, begun: nat)
    requires Stage(y, n, sent, begun) && sent < begun
    ensures Stage(Advance(y, Finish(sent)), n, sent + 1, begun)
  {
    assert [0][..0] == [];
    assert FanOut(Progress({}, y.mail.active, y.mail.sends, false), sent, OPENED, [0])
        == Progress({0}, y.mail.active, y.mail.sends + [(sent, 0)], false);
  }

  lemma {:induction false} Prepared(n: nat) returns (moves: seq<Move>)
    ensures Stage(Evolve(moves), n, 0, 0) && Widest(moves) == 0
  {
    if n == 0 {
      moves := [] + [Change(SetDevice(0, true))];
      OneMove([], Change(SetDevice(0, true)));
    } else {
      var init := Prepared(n - 1);
      OneMove(init, Change(Enqueue(true)));
      OpenRounds(Evolve(init).rounds, 0, 0);
      moves := init + [Change(Enqueue(true))];
    }
  }

  /** Deliveries one after the other, as long as there is room. */
  lemma {:induction false} OneByOne(n: nat, sent: nat) returns (moves: seq<Move>)
    requires sent <= n && sent < DAILY_CAP
    ensures Stage(Evolve(moves), n, sent, sent) && Widest(moves) <= 1
    decreases sent
  {
    if sent == 0 {
      moves := Prepared(n);
    } else {
      var init := OneByOne(n, sent - 1);
      hide Evolve, Widest, Advance, Stage;
      moves := Opening(init, n, sent - 1, sent - 1);
      moves := Closing(moves, n, sent - 1, sent);
    }
  }

  /** One more round begins. */
  lemma Opening(init: seq<Move>, n: nat, sent: nat, begun: nat) returns (moves: seq<Move>)
    requires Stage(Evolve(init), n, sent, begun) && sent < DAILY_CAP && begun < n
    ensures Stage(Evolve(moves), n, sent, begun + 1)
    ensures Widest(moves) == if begun + 1 - sent > Widest(init) then begun + 1 - sent else Widest(init)
  {
    var move := Begin(begun, begun, 0, true, map[0 := Accepted], [0]);
    hide Evolve, Widest, Advance;
    StageBegins(Evolve(init), n, sent, begun);
    OneMove(init, move);
    OpenRounds(Advance(Evolve(init), move).rounds, sent, begun + 1);
    moves := init + [move];
  }

  /** One round ends. */
  lemma Closing(init: seq<Move>, n: nat, sent: nat, begun: nat) returns (moves: seq<Move>)
    requires Stage(Evolve(init), n, sent, begun) && sent < begun
    ensures Stage(Evolve(moves), n, sent + 1, begun)
    ensures Widest(moves) == if begun - sent - 1 > Widest(init) then begun - sent - 1 else Widest(init)
  {
    hide Evolve, Widest, Advance;
    StageEnds(Evolve(init), n, sent, begun);
    OneMove(init, Finish(sent));
    OpenRounds(Advance(Evolve(init), Finish(sent)).rounds, sent + 1, begun);
    moves := init + [Finish(sent)];
  }

  /** After nine, any number of rounds begin: each counts nine. */
  lemma {:induction false} AllBegin(width: nat, begun: nat) returns (moves: seq<Move>)
    requires begun <= width
    ensures Stage(Evolve(moves), DAILY_CAP - 1 + width, DAILY_CAP - 1, DAILY_CAP - 1 + begun)
    ensures Widest(moves) <= 1 || Widest(moves) == begun
    ensures begun > 0 ==> Widest(moves) >= begun
    decreases begun
  {
    if begun == 0 {
      moves := OneByOne(DAILY_CAP - 1 + width, DAILY_CAP - 1);
    } else {
      var init := AllBegin(width, begun - 1);
      hide Evolve, Widest, Stage;
      moves := Opening(init, DAILY_CAP - 1 + width, DAILY_CAP - 1, DAILY_CAP - 1 + begun - 1);
    }
  }

  lemma {:induction false} AllEnd(width: nat, ended: nat) returns (moves: seq<Move>)
    requires 1 <= width && ended <= width
    ensures Stage(Evolve(moves), DAILY_CAP - 1 + width, DAILY_CAP - 1 + ended, DAILY_CAP - 1 + width) && Widest(moves) == width
    decreases ended
  {
    if ended == 0 {
      moves := AllBegin(width, width);
    } else {
      var init := AllEnd(width, ended - 1);
      hide Evolve, Widest, Stage;
      moves := Closing(init, DAILY_CAP - 1 + width, DAILY_CAP - 1 + ended - 1, DAILY_CAP - 1 + width);
    }
  }

  /** For every number of rounds at once there are moves with just so many that reach the bound: eleven with two. */
  lemma CapPassed(width: nat)
    requires width >= 1
    ensures exists moves :: Widest(moves) == width && |Through(Evolve(moves).mail.deliveries, 0)| == 9 + width
  {
    var moves := AllEnd(width, width);
    CountsThrough(Evolve(moves).mail.deliveries, 0);
    CountsPrefix(Evolve(moves).mail.deliveries, DAILY_CAP - 1 + width);
  }
}
