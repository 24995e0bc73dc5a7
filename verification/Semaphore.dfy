/** The semaphore that the listener task and the two callbacks of the backhaul share: its count over every run. */
module Semaphore {
  import opened Backhaul
  import opened BackhaulRuns
  import opened Bytes
  import opened Mbuf

  // ---- what a step releases ----

  /** A frame that wakes a waiting listener: one of the protocol that is neither a repeat nor one whose blocks are
      kept. */
  predicate Rouses(s: State, f: RxFrame, env: Env)
    requires s.Valid()
  {
    Ours(f) && !(Qualifies(s, f) && Repeats(s, f)) && !Keeps(s, f, env)
  }

  /** Units that a callback gives, told from the state before it and the frame alone. */
  function Releases(s: State, e: Event): (n: nat)
    requires s.Valid()
  {
    match e
    case Rx(f, env) => if s.sem == 0 && Rouses(s, f, env) then 1 else 0
    case Tx(fctrl) => if s.sem == 0 && fctrl == FRAME_CONTROL && s.deadline == 0 then 1 else 0
    case _ => 0
  }

  predicate IsCallback(e: Event) {
    e.Rx? || e.Tx?
  }

  function StartError(e: Event): (n: nat) {
    if e.StartRx? && e.error then 1 else 0
  }

  /** A callback changes the count by exactly that. */
  lemma ReleaseExact(s: State, e: Event)
    requires s.Valid() && IsCallback(e)
    ensures Step(s, e).sem == s.sem + Releases(s, e)
    ensures Step(s, e).listener == s.listener
  {
    if e.Rx? {
      LostExact(s, e);
    }
  }

  /** Where a step of the listener task leads, and from where it may be taken. */
  function Next(l: Listener, e: Event): (m: Listener) {
    match e
    case Enter(_, _) => Entered
    case Acquire => Acquired
    case SetDeadline => Dated
    case Arm => Armed
    case StartRx(_) => Started
    case AcquireAgain => Woken
    case Release => Released
    case Disarm => Idle
    case _ => l
  }

  predicate MayMove(l: Listener, sem: nat, e: Event) {
    match e
    case Enter(_, _) => l == Idle
    case Acquire => l == Entered && sem > 0
    case SetDeadline => l == Acquired
    case Arm => l == Dated
    case StartRx(_) => l == Armed
    case AcquireAgain => l == Started && sem > 0
    case Release => l == Woken
    case Disarm => l == Released
    case _ => true
  }

  /** What it does to the count. */
  function Moved(sem: nat, e: Event): (m: int) {
    match e
    case Acquire => sem - 1
    case StartRx(error) => if error then sem + 1 else sem
    case AcquireAgain => sem - 1
    case Release => sem + 1
    case _ => sem
  }

  lemma TaskExact(s: State, e: Event)
    requires s.Valid() && Enabled(s, e) && !IsCallback(e)
    ensures MayMove(s.listener, s.sem, e)
    ensures Step(s, e).listener == Next(s.listener, e) && Step(s, e).sem == Moved(s.sem, e)
  {
  }

  /** A waiting listener is woken by a backhaul frame unless the frame repeats the last one or its blocks are kept. */
  lemma WokenUnlessLost(s: State, f: RxFrame, env: Env)
    requires s.Valid() && s.sem == 0 && Ours(f)
    ensures Step(s, Rx(f, env)).sem == if Qualifies(s, f) && (Repeats(s, f) || Keeps(s, f, env)) then 0 else 1
  {
    ReleaseExact(s, Rx(f, env));
  }

  // ---- bounds ----

  /** What the count can be at each point of the listener, whatever the callbacks do. */
  predicate Bounded(l: Listener, sem: nat) {
    match l
    case Idle => 1 <= sem <= 2
    case Entered => 1 <= sem <= 2
    case Acquired => sem <= 1
    case Dated => sem <= 1
    case Armed => sem <= 1
    case Started => sem <= 2
    case Woken => sem <= 1
    case Released => 1 <= sem <= 2
  }

  predicate SemBounded(s: State) {
    Bounded(s.listener, s.sem)
  }

  lemma StepSemBounded(s: State, e: Event)
    requires s.Valid() && Enabled(s, e) && SemBounded(s)
    ensures SemBounded(Step(s, e))
  {
    if IsCallback(e) {
      ReleaseExact(s, e);
    } else {
      TaskExact(s, e);
    }
  }

  lemma {:induction false} RunSemBounded(s: State, es: seq<Event>)
    requires s.Valid() && Legal(s, es) && SemBounded(s)
    ensures SemBounded(Run(s, es)) && Run(s, es).sem <= 2
    decreases |es|
  {
    if es != [] {
      StepSemBounded(s, es[0]);
      RunSemBounded(Step(s, es[0]), es[1..]);
    }
  }

  /** No callback releases while no listen holds the semaphore. */
  lemma NoReleaseOutsideListen(s: State, e: Event)
    requires s.Valid() && Enabled(s, e) && SemBounded(s) && IsCallback(e)
    requires s.listener == Idle || s.listener == Entered || s.listener == Released
    ensures Step(s, e).sem == s.sem
  {
    ReleaseExact(s, e);
  }

  // ---- the account over many listens ----

  function RunReleases(s: State, es: seq<Event>): (n: nat)
    requires s.Valid() && Legal(s, es)
    decreases |es|
  {
    if es == [] then 0 else Releases(s, es[0]) + StartError(es[0]) + RunReleases(Step(s, es[0]), es[1..])
  }

  /** Listens completed in a run. */
  function Listens(es: seq<Event>): (n: nat) {
    if es == [] then 0 else Finished(es[0]) + Listens(es[1..])
  }

  function Finished(e: Event): (n: nat) {
    if e.Disarm? then 1 else 0
  }

  /** Acquires that the running listen has not yet paid back. */
  function Owed(l: Listener): (n: nat) {
    match l
    case Idle => 0
    case Entered => 0
    case Woken => 2
    case _ => 1
  }

  /** The count together with what the running listen still owes. */
  function Balance(s: State): (n: nat) {
    s.sem + Owed(s.listener)
  }

  lemma StepBalance(s: State, e: Event)
    requires s.Valid() && Enabled(s, e)
    ensures Balance(Step(s, e)) + Finished(e) == Balance(s) + Releases(s, e) + StartError(e)
  {
    if IsCallback(e) {
      ReleaseExact(s, e);
    } else {
      TaskExact(s, e);
    }
  }

  lemma {:induction false} SemAccount(s: State, es: seq<Event>)
    requires s.Valid() && Legal(s, es)
    ensures Balance(Run(s, es)) + Listens(es) == Balance(s) + RunReleases(s, es)
    decreases |es|
  {
    if es != [] {
      StepBalance(s, es[0]);
      SemAccount(Step(s, es[0]), es[1..]);
    }
  }

  /** Between listens the count is one plus the releases in excess of one per listen, and it is one or two. */
  lemma SemBetweenListens(s: State, es: seq<Event>)
    requires s.Valid() && Legal(s, es) && s.listener == Idle && s.sem == 1
    requires Run(s, es).listener == Idle
    ensures Run(s, es).sem == 1 + RunReleases(s, es) - Listens(es)
    ensures Run(s, es).sem == 1 || Run(s, es).sem == 2
  {
    SemAccount(s, es);
    RunSemBounded(s, es);
  }

  /** One listen that sees exactly one release hands the semaphore back as it found it, and only such a one does. */
  lemma OneListen(s: State, es: seq<Event>)
    requires s.Valid() && Legal(s, es) && s.listener == Idle
    requires Run(s, es).listener == Idle && Listens(es) == 1
    ensures Run(s, es).sem == s.sem <==> RunReleases(s, es) == 1
  {
    SemAccount(s, es);
  }

  // ---- one listen, by what happens in it ----

  /** Between the first acquire and the start of the radio. */
  predicate Starting(l: Listener) {
    l == Acquired || l == Dated || l == Armed
  }

  /** What the semaphore sees of a step: the event and what it releases. */
  datatype Move = Move(e: Event, r: nat)

  function Moves(s: State, es: seq<Event>): (ms: seq<Move>)
    requires s.Valid() && Legal(s, es)
    decreases |es|
  {
    if es == [] then [] else [Move(es[0], Releases(s, es[0]))] + Moves(Step(s, es[0]), es[1..])
  }

  predicate Possible(l: Listener, sem: nat, ms: seq<Move>)
    decreases |ms|
  {
    ms == [] ||
    (&& MayMove(l, sem, ms[0].e) && ms[0].r <= 1 && (ms[0].r == 1 ==> sem == 0 && IsCallback(ms[0].e))
     && Possible(Next(l, ms[0].e), Moved(sem, ms[0].e) + ms[0].r, ms[1..]))
  }

  /** Where the listener and the count end up. */
  function End(l: Listener, sem: nat, ms: seq<Move>): (r: (Listener, nat))
    requires Possible(l, sem, ms)
    decreases |ms|
  {
    if ms == [] then (l, sem) else End(Next(l, ms[0].e), Moved(sem, ms[0].e) + ms[0].r, ms[1..])
  }

  /** The moves of a run are possible and lead where the run leads. */
  lemma {:induction false} RunMoves(s: State, es: seq<Event>)
    requires s.Valid() && Legal(s, es)
    ensures Possible(s.listener, s.sem, Moves(s, es))
    ensures End(s.listener, s.sem, Moves(s, es)) == (Run(s, es).listener, Run(s, es).sem)
    ensures Errors(Moves(s, es)) == StartErrors(es) && Ends(Moves(s, es)) == Listens(es)
    decreases |es|
  {
    if es != [] {
      var e, t := es[0], Step(s, es[0]);
      StepMoves(s, e);
      RunMoves(t, es[1..]);
      assert Moves(s, es)[1..] == Moves(t, es[1..]);
    }
  }

  lemma StepMoves(s: State, e: Event)
    requires s.Valid() && Enabled(s, e)
    ensures MayMove(s.listener, s.sem, e)
    ensures Releases(s, e) <= 1 && (Releases(s, e) == 1 ==> s.sem == 0 && IsCallback(e))
    ensures Step(s, e).listener == Next(s.listener, e) && Step(s, e).sem == Moved(s.sem, e) + Releases(s, e)
  {
    if IsCallback(e) {
      ReleaseExact(s, e);
    } else {
      TaskExact(s, e);
    }
  }

  function EarlyMoves(l: Listener, ms: seq<Move>): (n: nat)
    decreases |ms|
  {
    if ms == [] then 0 else (if Starting(l) then ms[0].r else 0) + EarlyMoves(Next(l, ms[0].e), ms[1..])
  }

  function LateMoves(l: Listener, ms: seq<Move>): (n: nat)
    decreases |ms|
  {
    if ms == [] then 0 else (if l == Woken then ms[0].r else 0) + LateMoves(Next(l, ms[0].e), ms[1..])
  }

  function Errors(ms: seq<Move>): (n: nat) {
    if ms == [] then 0 else StartError(ms[0].e) + Errors(ms[1..])
  }

  function Ends(ms: seq<Move>): (n: nat) {
    if ms == [] then 0 else Finished(ms[0].e) + Ends(ms[1..])
  }

  /** Releases between the first acquire and the start of the radio. */
  function Early(s: State, es: seq<Event>): (n: nat)
    requires s.Valid() && Legal(s, es)
  {
    EarlyMoves(s.listener, Moves(s, es))
  }

  /** Releases between the second acquire and the final release. */
  function Late(s: State, es: seq<Event>): (n: nat)
    requires s.Valid() && Legal(s, es)
  {
    LateMoves(s.listener, Moves(s, es))
  }

  function StartErrors(es: seq<Event>): (n: nat) {
    if es == [] then 0 else StartError(es[0]) + StartErrors(es[1..])
  }

  function Max(a: int, b: int): (m: int)
    ensures m >= a && m >= b && (m == a || m == b)
  {
    if a < b then b else a
  }

  // The count at the end of a run that ends between listens, from each point of its last listen, backwards.

  predicate LastListen(l: Listener, sem: nat, ms: seq<Move>, left: nat) {
    Bounded(l, sem) && Possible(l, sem, ms) && Ends(ms) == left && End(l, sem, ms).0 == Idle
  }

  lemma {:induction false} FromDone(sem: nat, ms: seq<Move>)
    requires LastListen(Idle, sem, ms, 0)
    ensures EarlyMoves(Idle, ms) == 0 && Errors(ms) == 0 && LateMoves(Idle, ms) == 0
    ensures End(Idle, sem, ms).1 == sem
    decreases |ms|
  {
    if ms != [] {
      if ms[0].e.Enter? {
        NoWayBack(Entered, sem, ms[1..]);
        assert false;
      } else {
        FromDone(sem, ms[1..]);
      }
    }
  }

  /** A listen that has begun has to end before the listener is idle again. */
  lemma {:induction false} NoWayBack(l: Listener, sem: nat, ms: seq<Move>)
    requires Possible(l, sem, ms) && l != Idle && End(l, sem, ms).0 == Idle
    ensures Ends(ms) >= 1
    decreases |ms|
  {
    if !ms[0].e.Disarm? {
      NoWayBack(Next(l, ms[0].e), Moved(sem, ms[0].e) + ms[0].r, ms[1..]);
    }
  }

  lemma {:induction false} FromReleased(sem: nat, ms: seq<Move>)
    requires LastListen(Released, sem, ms, 1)
    ensures EarlyMoves(Released, ms) == 0 && Errors(ms) == 0 && LateMoves(Released, ms) == 0
    ensures End(Released, sem, ms).1 == sem
    decreases |ms|
  {
    if ms[0].e.Disarm? {
      FromDone(sem, ms[1..]);
    } else {
      FromReleased(sem, ms[1..]);
    }
  }

  lemma {:induction false} FromWoken(sem: nat, ms: seq<Move>)
    requires LastListen(Woken, sem, ms, 1)
    ensures EarlyMoves(Woken, ms) == 0 && Errors(ms) == 0
    ensures End(Woken, sem, ms).1 == sem + 1 + LateMoves(Woken, ms)
    decreases |ms|
  {
    if ms[0].e.Release? {
      FromReleased(sem + 1, ms[1..]);
    } else {
      FromWoken(sem + ms[0].r, ms[1..]);
    }
  }

  lemma {:induction false} FromStarted(sem: nat, ms: seq<Move>)
    requires LastListen(Started, sem, ms, 1)
    ensures EarlyMoves(Started, ms) == 0 && Errors(ms) == 0
    ensures End(Started, sem, ms).1 == Max(1, sem) + LateMoves(Started, ms)
    decreases |ms|
  {
    if ms[0].e.AcquireAgain? {
      FromWoken(sem - 1, ms[1..]);
    } else {
      FromStarted(sem + ms[0].r, ms[1..]);
    }
  }

  lemma {:induction false} FromStarting(l: Listener, sem: nat, ms: seq<Move>)
    requires LastListen(l, sem, ms, 1) && Starting(l)
    ensures sem + EarlyMoves(l, ms) <= 1 && Errors(ms) <= 1
    ensures End(l, sem, ms).1 == Max(1, sem + EarlyMoves(l, ms) + Errors(ms)) + LateMoves(l, ms)
    decreases |ms|
  {
    var e := ms[0].e;
    if e.StartRx? {
      FromStarted(sem + StartError(e), ms[1..]);
    } else {
      FromStarting(Next(l, e), sem + ms[0].r, ms[1..]);
    }
  }

  lemma {:induction false} FromEntered(sem: nat, ms: seq<Move>)
    requires LastListen(Entered, sem, ms, 1)
    ensures EarlyMoves(Entered, ms) <= 1 && Errors(ms) <= 1
    ensures End(Entered, sem, ms).1 == Max(1, sem - 1 + EarlyMoves(Entered, ms) + Errors(ms)) + LateMoves(Entered, ms)
    decreases |ms|
  {
    if ms[0].e.Acquire? {
      FromStarting(Acquired, sem - 1, ms[1..]);
    } else {
      FromEntered(sem, ms[1..]);
    }
  }

  lemma {:induction false} FromIdle(sem: nat, ms: seq<Move>)
    requires LastListen(Idle, sem, ms, 1)
    ensures EarlyMoves(Idle, ms) <= 1 && Errors(ms) <= 1
    ensures End(Idle, sem, ms).1 == Max(1, sem - 1 + EarlyMoves(Idle, ms) + Errors(ms)) + LateMoves(Idle, ms)
    decreases |ms|
  {
    if ms[0].e.Enter? {
      FromEntered(sem, ms[1..]);
    } else {
      FromIdle(sem, ms[1..]);
    }
  }

  /** The count after one listen, from any count before it: releases before the radio starts and a start error add
      up, the second acquire needs one of them or waits for one, and a release behind the second acquire comes on
      top. */
  lemma OneListenExact(s: State, es: seq<Event>)
    requires s.Valid() && Legal(s, es) && SemBounded(s) && s.listener == Idle
    requires Run(s, es).listener == Idle && Listens(es) == 1
    ensures Early(s, es) <= 1 && StartErrors(es) <= 1
    ensures Run(s, es).sem == Max(1, s.sem - 1 + Early(s, es) + StartErrors(es)) + Late(s, es)
  {
    RunMoves(s, es);
    FromIdle(s.sem, Moves(s, es));
  }

  /** A listen begun at one ends at two if and only if an early release meets a start error or there is a late
      release. */
  lemma TwoIff(s: State, es: seq<Event>)
    requires s.Valid() && Legal(s, es) && s.listener == Idle && s.sem == 1
    requires Run(s, es).listener == Idle && Listens(es) == 1
    ensures Run(s, es).sem == 2 <==> (Early(s, es) > 0 && StartErrors(es) > 0) || Late(s, es) > 0
    ensures Run(s, es).sem == 1 || Run(s, es).sem == 2
  {
    OneListenExact(s, es);
    RunSemBounded(s, es);
  }

  // ---- one between all listens of a run ----

  /** An event that gives a unit too many: a start error when the semaphore is not empty, or a release behind the second
      acquire. */
  predicate Surplus(s: State, e: Event)
    requires s.Valid()
  {
    (StartError(e) == 1 && s.sem > 0) || (s.listener == Woken && Releases(s, e) == 1)
  }

  predicate NoSurplus(s: State, es: seq<Event>)
    requires s.Valid() && Legal(s, es)
    decreases |es|
  {
    es == [] || (!Surplus(s, es[0]) && NoSurplus(Step(s, es[0]), es[1..]))
  }

  /** At every point of the run at which no listen is active the count is one. */
  predicate AlwaysOne(s: State, es: seq<Event>)
    requires s.Valid() && Legal(s, es)
    decreases |es|
  {
    (s.listener == Idle ==> s.sem == 1) && (es == [] || AlwaysOne(Step(s, es[0]), es[1..]))
  }

  predicate Calm(s: State) {
    match s.listener
    case Idle => s.sem == 1
    case Entered => s.sem == 1
    case Woken => s.sem == 0
    case Released => s.sem == 1
    case _ => s.sem <= 1
  }

  predicate Doomed(s: State) {
    match s.listener
    case Started => s.sem == 2
    case Woken => s.sem == 1
    case Released => s.sem == 2
    case Idle => s.sem == 2
    case _ => false
  }

  lemma CalmStep(s: State, e: Event)
    requires s.Valid() && Enabled(s, e) && Calm(s)
    ensures if Surplus(s, e) then Doomed(Step(s, e)) else Calm(Step(s, e))
  {
    if IsCallback(e) {
      ReleaseExact(s, e);
    } else {
      TaskExact(s, e);
    }
  }

  lemma {:induction false} DoomedRun(s: State, es: seq<Event>)
    requires s.Valid() && Legal(s, es) && Doomed(s) && Run(s, es).listener == Idle
    ensures !AlwaysOne(s, es)
    decreases |es|
  {
    if es != [] && s.listener != Idle {
      if IsCallback(es[0]) {
        ReleaseExact(s, es[0]);
      }
      DoomedRun(Step(s, es[0]), es[1..]);
    }
  }

  lemma {:induction false} AlwaysOneFrom(s: State, es: seq<Event>)
    requires s.Valid() && Legal(s, es) && Calm(s) && Run(s, es).listener == Idle
    ensures AlwaysOne(s, es) <==> NoSurplus(s, es)
    decreases |es|
  {
    if es != [] {
      CalmStep(s, es[0]);
      if Surplus(s, es[0]) {
        DoomedRun(Step(s, es[0]), es[1..]);
      } else {
        AlwaysOneFrom(Step(s, es[0]), es[1..]);
      }
    }
  }

  /** From one, over any number of listens, the count is one between all of them if and only if no event is a
      surplus. */
  lemma AlwaysOneIff(s: State, es: seq<Event>)
    requires s.Valid() && Legal(s, es) && s.listener == Idle && s.sem == 1 && Run(s, es).listener == Idle
    ensures AlwaysOne(s, es) <==> NoSurplus(s, es)
  {
    AlwaysOneFrom(s, es);
  }

  // ---- both ways to two ----

  /** The listen `es` from s ends between listens at two, having had so many start errors. */
  predicate EndsAtTwo(s: State, es: seq<Event>, errors: nat)
    requires s.Valid()
  {
    Legal(s, es) && Run(s, es).listener == Idle && Run(s, es).sem == 2 && StartErrors(es) == errors
  }

  lemma Prepend(s: State, e: Event, es: seq<Event>, errors: nat)
    requires s.Valid() && Enabled(s, e) && EndsAtTwo(Step(s, e), es, errors)
    ensures EndsAtTwo(s, [e] + es, StartError(e) + errors)
  {
    Extend(s, e, es);
    assert ([e] + es)[1..] == es;
  }

  lemma EndFromReleased(s: State)
    requires s.Valid() && s.listener == Released && s.sem == 2
    ensures EndsAtTwo(s, [Disarm], 0)
  {
    assert EndsAtTwo(Step(s, Disarm), [], 0);
    Prepend(s, Disarm, [], 0);
    assert [Disarm] + [] == [Disarm];
  }

  lemma EndFromWoken(s: State)
    requires s.Valid() && s.listener == Woken && s.sem == 1
    ensures EndsAtTwo(s, [Release] + [Disarm], 0)
  {
    EndFromReleased(Step(s, Release));
    Prepend(s, Release, [Disarm], 0);
  }

  lemma EndWithError(s: State)
    requires s.Valid() && s.listener == Acquired && s.sem == 1
    ensures exists es :: EndsAtTwo(s, es, 1)
  {
    var s1 := Step(s, SetDeadline);
    var s2 := Step(s1, Arm);
    var s3 := Step(s2, StartRx(true));
    var es := [Release] + [Disarm];
    EndFromWoken(Step(s3, AcquireAgain));
    Prepend(s3, AcquireAgain, es, 0);
    Prepend(s2, StartRx(true), [AcquireAgain] + es, 0);
    Prepend(s1, Arm, [StartRx(true)] + ([AcquireAgain] + es), 1);
    Prepend(s, SetDeadline, [Arm] + ([StartRx(true)] + ([AcquireAgain] + es)), 1);
  }

  /** One way: a transmit callback in the gap before the deadline is set, then a start error. */
  lemma TwoByStartError(s: State, start: U64, window: U16)
    requires s.Valid() && s.listener == Idle && s.sem == 1 && s.deadline == 0
    ensures exists es :: EndsAtTwo(s, es, 1)
  {
    var s1 := Step(s, Enter(start, window));
    var s2 := Step(s1, Acquire);
    EndWithError(Step(s2, Tx(FRAME_CONTROL)));
    var es :| EndsAtTwo(Step(s2, Tx(FRAME_CONTROL)), es, 1);
    Prepend(s2, Tx(FRAME_CONTROL), es, 1);
    Prepend(s1, Acquire, [Tx(FRAME_CONTROL)] + es, 1);
    Prepend(s, Enter(start, window), [Acquire] + ([Tx(FRAME_CONTROL)] + es), 1);
  }

  lemma EndWithSecondFrame(s: State, f: RxFrame, env: Env)
    requires s.Valid() && s.listener == Started && s.sem == 0 && Ours(f) && !Qualifies(s, f)
    ensures exists es :: EndsAtTwo(s, es, 0)
  {
    var s1 := Step(s, Rx(f, env));
    ReleaseExact(s, Rx(f, env));
    var s2 := Step(s1, AcquireAgain);
    ReleaseExact(s2, Rx(f, env));
    var es := [Release] + [Disarm];
    EndFromWoken(Step(s2, Rx(f, env)));
    Prepend(s2, Rx(f, env), es, 0);
    Prepend(s1, AcquireAgain, [Rx(f, env)] + es, 0);
    Prepend(s, Rx(f, env), [AcquireAgain] + ([Rx(f, env)] + es), 0);
  }

  lemma EndFromAcquired(s: State, f: RxFrame, env: Env)
    requires s.Valid() && s.listener == Acquired && s.sem == 0 && Ours(f) && !Qualifies(s, f)
    ensures exists es :: EndsAtTwo(s, es, 0)
  {
    var s1 := Step(s, SetDeadline);
    var s2 := Step(s1, Arm);
    EndWithSecondFrame(Step(s2, StartRx(false)), f, env);
    var es :| EndsAtTwo(Step(s2, StartRx(false)), es, 0);
    Prepend(s2, StartRx(false), es, 0);
    Prepend(s1, Arm, [StartRx(false)] + es, 0);
    Prepend(s, SetDeadline, [Arm] + ([StartRx(false)] + es), 0);
  }

  /** The other way, without any error: a second frame between the second acquire and the final release. A frame that is
      for another station will do, twice. */
  lemma TwoBySecondFrame(s: State, start: U64, window: U16, f: RxFrame, env: Env)
    requires s.Valid() && s.listener == Idle && s.sem == 1 && Ours(f) && !Qualifies(s, f)
    ensures exists es :: EndsAtTwo(s, es, 0)
  {
    var s1 := Step(s, Enter(start, window));
    EndFromAcquired(Step(s1, Acquire), f, env);
    var es :| EndsAtTwo(Step(s1, Acquire), es, 0);
    Prepend(s1, Acquire, es, 0);
    Prepend(s, Enter(start, window), [Acquire] + es, 0);
  }
}
