/** `LightweightSemaphore` of include/atomicops.h: a count in front of a kernel semaphore, with
    one waiting and one signalling thread. The machine takes one atomic access per step; the
    class below is the same code with its loops, run against any interference. */
module Semaphore {
  import opened Wrappers
  import opened Bits

  const SPINS: nat := 1024

  /** `tryWait()`, or `wait(timeout_usecs)`; a negative timeout waits for ever. */
  datatype Mode = Try | Wait(usecs: int)

  datatype WaiterPc = WIdle | WTryLoad | WTryTake | WSpin | WSpinTake | WKernel | WUndo | WRetake | WTryKernel

  datatype Waiter = Waiter(pc: WaiterPc, mode: Mode, spin: nat, result: Option<bool>)

  /** Inside `signal(permits)`: before its fetch_add, or about to post the kernel semaphore. */
  datatype Signaller = SIdle | SAdd(permits: nat) | SPost

  /** `count` is `m_count`; `tokens` the kernel semaphore. History: the permits at the start,
      those signalled, and the waits that returned true. */
  datatype Sema = Sema(
    count: int, tokens: nat, waiter: Waiter, signaller: Signaller, initial: int, signalled: nat, acquired: nat,
    fault: bool)

  function Init(initialCount: int): Sema {
    Sema(initialCount, 0, Waiter(WIdle, Try, 0, None), SIdle, initialCount, 0, 0, initialCount < 0)
  }

  /** Addition on the 64-bit signed count. */
  function Plus(x: int, d: int): int {
    if x + d >= HALF_WORD then x + d - WORD else if x + d < -HALF_WORD then x + d + WORD else x + d
  }

  function Add(s: Sema, d: int): Sema { s.(count := Plus(s.count, d)) }

  function At(s: Sema, pc: WaiterPc): Sema { s.(waiter := s.waiter.(pc := pc)) }

  function Returns(s: Sema, result: bool): Sema {
    s.(waiter := s.waiter.(pc := WIdle, result := Some(result)),
       acquired := if result then s.acquired + 1 else s.acquired)
  }

  /** The decrement after the spinning, which registers the waiter when no permit is there. */
  function Register(s: Sema): Sema {
    if s.count > 0 then Returns(Add(s, -1), true)
    else At(Add(s, -1), if s.waiter.mode == Wait(0) then WUndo else WKernel)
  }

  /** One access of the waiting thread; `woken` says whether a kernel wait under way goes on
      until a token comes or gives up now. */
  function WaitStep(s: Sema, woken: bool): Sema {
    match s.waiter.pc
    case WIdle => s
    case WTryLoad =>
      if s.count > 0 then At(s, WTryTake)
      else if s.waiter.mode.Try? then Returns(s, false)
      else s.(waiter := s.waiter.(pc := WSpin, spin := SPINS))
    case WTryTake => Returns(Add(s, -1), true)
    case WSpin =>
      if s.waiter.spin == 0 then Register(s)
      else if s.count > 0 then At(s, WSpinTake)
      else s.(waiter := s.waiter.(spin := s.waiter.spin - 1))
    case WSpinTake => Returns(Add(s, -1), true)
    case WKernel =>
      if !woken then At(s, WUndo) else if s.tokens > 0 then Returns(s.(tokens := s.tokens - 1), true) else s
    case WUndo => if s.count < 0 then Returns(Add(s, 1), false) else At(Add(s, 1), WRetake)
    case WRetake => At(Add(s, -1), if s.count > 0 then WTryKernel else WUndo)
    case WTryKernel => if s.tokens > 0 then Returns(s.(tokens := s.tokens - 1), true) else At(s, WUndo)
  }

  function BeginWait(s: Sema, mode: Mode): Sema {
    if s.waiter.pc == WIdle then s.(waiter := Waiter(WTryLoad, mode, 0, None)) else s
  }

  /** One access of the signalling thread. */
  function SignalStep(s: Sema): Sema {
    match s.signaller
    case SIdle => s
    case SAdd(permits) =>
      Add(s, permits).(signaller := if s.count < 0 then SPost else SIdle, signalled := s.signalled + permits,
                       fault := s.fault || s.count < -1)
    case SPost => s.(tokens := s.tokens + 1, signaller := SIdle)
  }

  function BeginSignal(s: Sema, permits: nat): Sema {
    if s.signaller == SIdle then s.(signaller := SAdd(permits)) else s
  }

  // ---- Invariant -----------------------------------------------------------------

  /** The waiter has been counted in `m_count` and has neither taken a permit nor undone it. */
  predicate Registered(s: Sema) { s.waiter.pc in {WKernel, WUndo, WTryKernel} }

  /** Tokens posted to the kernel semaphore, or about to be. */
  function Posts(s: Sema): nat { s.tokens + if s.signaller == SPost then 1 else 0 }

  /** Permits given and not taken. */
  function Permits(s: Sema): int { s.initial + s.signalled - s.acquired }

  /** A `signal(1)` under way whose permit has not been added yet. */
  function Unsignalled(s: Sema): nat { if s.signaller.SAdd? then 1 else 0 }

  /** Permits given, in the middle of the code of the waiter that each line describes: with no
      waiter registered no token exists; a registered waiter has one exactly when it has a permit. */
  ghost predicate Inv(s: Sema) {
    && !s.fault && s.count < HALF_WORD
    && Permits(s) == s.count + (if Registered(s) then 1 else 0)
    && match s.waiter.pc
       case WIdle => s.count >= 0 && Posts(s) == 0
       case WTryLoad => s.count >= 0 && Posts(s) == 0
       case WSpin => s.count >= 0 && Posts(s) == 0 && s.waiter.mode.Wait?
       case WTryTake => s.count >= 1 && Posts(s) == 0
       case WSpinTake => s.count >= 1 && Posts(s) == 0
       case WKernel => s.count >= -1 && Posts(s) == (if s.count >= 0 then 1 else 0) && s.waiter.mode.Wait?
       case WUndo => s.count >= -1 && Posts(s) == (if s.count >= 0 then 1 else 0)
       case WRetake => s.count >= 1 && Posts(s) == 1
       case WTryKernel => s.count >= 0 && Posts(s) == 1
  }

  /** A signal keeps the protocol exactly when it brings a permit or finds no registered waiter
      without one: `signal(0)` at the wrong moment posts a token that no permit stands behind. */
  lemma SignalKeepsIff(s: Sema)
    requires Inv(s) && s.signaller.SAdd? && s.count + s.signaller.permits < HALF_WORD
    ensures Inv(SignalStep(s)) <==> s.signaller.permits >= 1 || s.count >= 0
  {
    var s' := SignalStep(s);
    if s.signaller.permits == 0 && s.count < 0 {
      assert Posts(s') == 1 && s'.count == -1;
    }
  }

  // ---- Runs ----------------------------------------------------------------------

  datatype Action = Waits(mode: Mode) | WaiterStep(woken: bool) | Signals(permits: nat) | SignallerStep

  function Next(s: Sema, a: Action): Sema {
    match a
    case Waits(mode) => BeginWait(s, mode)
    case WaiterStep(woken) => WaitStep(s, woken)
    case Signals(permits) => BeginSignal(s, permits)
    case SignallerStep => SignalStep(s)
  }

  function Run(s: Sema, actions: seq<Action>): Sema
    decreases |actions|
  {
    if actions == [] then s else Next(Run(s, actions[..|actions| - 1]), actions[|actions| - 1])
  }

  /** Every call is `signal(permits)` with `permits >= 1`. */
  predicate AllPositive(actions: seq<Action>) {
    forall i :: 0 <= i < |actions| && actions[i].Signals? ==> actions[i].permits >= 1
  }

  /** The count never outgrows its 64-bit type. */
  ghost predicate Fits(s: Sema, actions: seq<Action>) {
    forall k :: 0 <= k <= |actions| ==> Permits(Run(s, actions[..k])) < HALF_WORD
  }

  /** Between calls nothing is pending, and a pending signal brings a permit. */
  ghost predicate Good(s: Sema) { Inv(s) && (s.signaller.SAdd? ==> s.signaller.permits >= 1) }

  lemma NextGood(s: Sema, a: Action)
    requires Good(s) && (a.Signals? ==> a.permits >= 1) && Permits(Next(s, a)) < HALF_WORD
    ensures Good(Next(s, a))
  {
    if a.SignallerStep? && s.signaller.SAdd? {
      SignalKeepsIff(s);
    }
  }

  /** What a step of the waiting thread does to the counts. */
  lemma WaitTakes(s: Sema, woken: bool)
    requires Good(s) && s.waiter.pc != WIdle && Permits(s) < HALF_WORD
    ensures var s' := WaitStep(s, woken);
      && Good(s') && s'.initial == s.initial && s'.signaller == s.signaller && s'.signalled == s.signalled
      && (s'.waiter.pc == WIdle ==> s'.waiter.result.Some?)
      && s'.acquired == s.acquired + (if s'.waiter.pc == WIdle && s'.waiter.result == Some(true) then 1 else 0)
      && Good(BeginWait(s', Wait(-1)))
  {
    NextGood(s, WaiterStep(woken));
  }

  lemma {:induction false} RunGood(s: Sema, actions: seq<Action>)
    requires Good(s) && AllPositive(actions) && Fits(s, actions)
    ensures Good(Run(s, actions))
    decreases |actions|
  {
    if actions != [] {
      var n := |actions| - 1;
      forall k | 0 <= k <= n ensures Permits(Run(s, actions[..n][..k])) < HALF_WORD {
        assert actions[..n][..k] == actions[..k];
      }
      RunGood(s, actions[..n]);
      assert actions[..n + 1] == actions;
      NextGood(Run(s, actions[..n]), actions[n]);
    }
  }

  /** Over every run with any interleaving: the count is never below -1, so the assert of `signal`
      holds; permits are conserved and never overdrawn; a registered waiter has exactly one token,
      posted or about to be, when it has a permit, and none otherwise; no token outlives a call. */
  lemma SemaphoreSafety(initialCount: int, actions: seq<Action>)
    requires 0 <= initialCount < HALF_WORD && AllPositive(actions) && Fits(Init(initialCount), actions)
    ensures var s := Run(Init(initialCount), actions);
      && !s.fault && s.count >= -1 && s.acquired <= initialCount + s.signalled
      && initialCount + s.signalled == s.acquired + s.count + (if Registered(s) then 1 else 0)
      && (Registered(s) ==> Posts(s) == if Permits(s) >= 1 then 1 else 0)
      && (s.waiter.pc == WIdle ==> s.tokens == 0 && s.signaller != SPost)
  {
    RunGood(Init(initialCount), actions);
    RunInitial(Init(initialCount), actions);
  }

  lemma {:induction false} RunInitial(s: Sema, actions: seq<Action>)
    ensures Run(s, actions).initial == s.initial
    decreases |actions|
  {
    hide Next;
    if actions != [] {
      RunInitial(s, actions[..|actions| - 1]);
      NextInitial(Run(s, actions[..|actions| - 1]), actions[|actions| - 1]);
    }
  }

  lemma NextInitial(s: Sema, a: Action)
    ensures Next(s, a).initial == s.initial
  {
  }

  /** No wake-up is lost: a waiter in the kernel with a permit there finds a token as soon as
      the signaller is out of `signal`; and a failed turn of the undo loop means the signaller
      is just about to post. */
  lemma NoLostWakeup(s: Sema)
    requires Good(s) && Registered(s)
    ensures s.waiter.pc == WKernel && s.signaller.SIdle? && Permits(s) >= 1 ==>
              s.tokens == 1 && WaitStep(s, true) == Returns(s.(tokens := 0), true)
    ensures s.waiter.pc == WTryKernel && WaitStep(s, true).waiter.pc == WUndo ==> s.signaller == SPost
  {
  }

  /** A wait that is refused, or times out, does so at an instant when no permit is there;
      one that succeeds takes exactly one. */
  lemma WaitOutcome(s: Sema, woken: bool)
    requires Good(s) && s.waiter.pc != WIdle && WaitStep(s, woken).waiter.pc == WIdle
    ensures var s' := WaitStep(s, woken);
      && s'.waiter.result.Some?
      && (if s'.waiter.result.value then Permits(s) >= 1 && Permits(s') == Permits(s) - 1
          else Permits(s) == 0 == Permits(s'))
  {
  }

  // ---- Time-outs -------------------------------------------------------------------

  /** `tryWait` never goes beyond the first look at the count, and a wait of 0 never sleeps. */
  predicate SleepsOnlyIfAsked(s: Sema) {
    && (s.waiter.mode.Try? ==> s.waiter.pc in {WIdle, WTryLoad, WTryTake})
    && (s.waiter.mode == Wait(0) ==> s.waiter.pc != WKernel)
  }

  lemma NextAsked(s: Sema, a: Action)
    requires SleepsOnlyIfAsked(s)
    ensures SleepsOnlyIfAsked(Next(s, a))
  {
  }

  /** A wait keeps its time-out, and the signaller does not touch the waiter. */
  lemma ModeStays(s: Sema, woken: bool)
    ensures WaitStep(s, woken).waiter.mode == s.waiter.mode && SignalStep(s).waiter == s.waiter
  {
  }

  lemma {:induction false} NeverSleeps(initialCount: int, actions: seq<Action>)
    ensures SleepsOnlyIfAsked(Run(Init(initialCount), actions))
    decreases |actions|
  {
    hide SleepsOnlyIfAsked, Next;
    if actions == [] {
      StartAsked(initialCount);
    } else {
      NeverSleeps(initialCount, actions[..|actions| - 1]);
      NextAsked(Run(Init(initialCount), actions[..|actions| - 1]), actions[|actions| - 1]);
    }
  }

  lemma StartAsked(initialCount: int)
    ensures SleepsOnlyIfAsked(Init(initialCount))
  {
  }

  predicate StartsWait(s: Sema, a: Action) { a.Waits? && s.waiter.pc == WIdle }

  /** A wait with a time-out other than 0 whose kernel wait has not been given up: not undone, and
      if it has returned, with a permit. */
  predicate Patient(s: Sema) {
    && s.waiter.mode.Wait? && s.waiter.mode.usecs != 0
    && s.waiter.pc in {WIdle, WTryLoad, WTryTake, WSpin, WSpinTake, WKernel}
    && (s.waiter.pc == WIdle ==> s.waiter.result == Some(true))
  }

  lemma NextPatient(s: Sema, a: Action)
    requires Patient(s) && !StartsWait(s, a) && a != WaiterStep(false)
    ensures Patient(Next(s, a))
  {
  }

  lemma PatientReturns(s: Sema)
    requires Patient(s) && s.waiter.pc != WIdle
    ensures var t := WaitStep(s, true);
      Patient(t) && (t.waiter.pc == WIdle ==> t.waiter.result == Some(true)) && Patient(SignalStep(s))
  {
    NextPatient(s, WaiterStep(true));
    NextPatient(s, SignallerStep);
  }

  /** A wait with a positive or negative time-out whose kernel wait is never given up does not
      return false: when it finds no permit it goes on to the kernel wait. */
  lemma {:induction false} PatientWait(s: Sema, usecs: int, actions: seq<Action>)
    requires s.waiter.pc == WIdle && usecs != 0
    requires forall i :: 0 <= i < |actions| ==>
      actions[i] != WaiterStep(false) && !StartsWait(Run(BeginWait(s, Wait(usecs)), actions[..i]), actions[i])
    ensures Patient(Run(BeginWait(s, Wait(usecs)), actions))
    ensures var t := Run(BeginWait(s, Wait(usecs)), actions); t.waiter.pc == WIdle ==> t.waiter.result == Some(true)
    decreases |actions|
  {
    hide Next, StartsWait;
    if actions != [] {
      var n := |actions| - 1;
      var prefix := actions[..n];
      forall i | 0 <= i < n
        ensures prefix[i] != WaiterStep(false) && !StartsWait(Run(BeginWait(s, Wait(usecs)), prefix[..i]), prefix[i])
      {
        assert prefix[..i] == actions[..i];
      }
      PatientWait(s, usecs, prefix);
      NextPatient(Run(BeginWait(s, Wait(usecs)), prefix), actions[n]);
    }
  }

  lemma {:induction false} RunAppend(s: Sema, a: seq<Action>, b: seq<Action>)
    ensures Run(s, a + b) == Run(Run(s, a), b)
    decreases |b|
  {
    if b == [] {
      assert a + b == a;
    } else {
      assert (a + b)[..|a + b| - 1] == a + b[..|b| - 1];
      RunAppend(s, a, b[..|b| - 1]);
    }
  }

  lemma {:induction false} Spinning(s: Sema, n: nat)
    requires s.waiter.pc == WSpin && s.count <= 0 && n <= s.waiter.spin
    ensures Run(s, seq(n, _ => WaiterStep(true))) == s.(waiter := s.waiter.(spin := s.waiter.spin - n))
  {
    if n > 0 {
      Spinning(s, n - 1);
      assert seq(n, _ => WaiterStep(true))[..n - 1] == seq(n - 1, _ => WaiterStep(true));
    }
  }

  lemma RunStep(s: Sema, actions: seq<Action>, a: Action)
    ensures Run(s, actions + [a]) == Next(Run(s, actions), a)
  {
    assert (actions + [a])[..|actions|] == actions;
  }

  lemma RunFirst(s: Sema, a: Action, rest: seq<Action>)
    ensures Run(s, [a] + rest) == Run(Next(s, a), rest)
  {
    RunAppend(s, [a], rest);
    assert [a][..0] == [];
  }

  /** `wait()` with no permit there, up to the kernel wait. */
  function Blocking(spins: nat): seq<Action> {
    [Waits(Wait(-1))] + ([WaiterStep(true)] + (seq(spins, _ => WaiterStep(true)) + [WaiterStep(true)]))
  }

  lemma Blocks(s: Sema, spins: nat)
    requires s.waiter.pc == WIdle && s.count == 0 && spins == SPINS
    ensures Run(s, Blocking(spins)) == s.(count := -1, waiter := Waiter(WKernel, Wait(-1), 0, None))
  {
    hide Run;
    var s1 := Next(s, Waits(Wait(-1)));
    var s2 := Next(s1, WaiterStep(true));
    var spinning := seq(spins, _ => WaiterStep(true));
    RunFirst(s, Waits(Wait(-1)), [WaiterStep(true)] + (spinning + [WaiterStep(true)]));
    RunFirst(s1, WaiterStep(true), spinning + [WaiterStep(true)]);
    RunStep(s2, spinning, WaiterStep(true));
    Spinning(s2, spins);
  }

  /** `signal(0)` at a registered waiter: the wait returns with a permit nobody gave. */
  lemma ZeroReleases(s: Sema)
    requires s.waiter.pc == WKernel && s.count == -1 && s.tokens == 0 && s.signaller == SIdle
    ensures var t := Run(s, [Signals(0), SignallerStep, SignallerStep, WaiterStep(true)]);
      t.waiter.result == Some(true) && t.acquired == s.acquired + 1 && t.signalled == s.signalled && t.count == -1
  {
    hide Run;
    RunFour(s, Signals(0), SignallerStep, SignallerStep, WaiterStep(true));
  }

  /** `wait`, then `signal(0)` while it is registered. */
  lemma SignalZeroBreaks(start: Sema, spins: nat)
    requires start == Init(0) && spins == SPINS
    ensures var s := Run(start, Blocking(spins) + [Signals(0), SignallerStep, SignallerStep, WaiterStep(true)]);
      s.waiter.result == Some(true) && s.acquired == 1 && s.signalled == 0 && s.count == -1
  {
    hide Run, Blocking;
    Blocks(start, spins);
    RunAppend(start, Blocking(spins), [Signals(0), SignallerStep, SignallerStep, WaiterStep(true)]);
    ZeroReleases(Run(start, Blocking(spins)));
  }

  lemma RunFour(s: Sema, a: Action, b: Action, c: Action, d: Action)
    ensures Run(s, [a, b, c, d]) == Next(Next(Next(Next(s, a), b), c), d)
  {
    hide Next;
    RunStep(s, [a, b, c], d);
    RunStep(s, [a, b], c);
    RunStep(s, [a], b);
    RunFirst(s, a, []);
    assert [a] + [] == [a] && [a] + [b] == [a, b] && [a, b] + [c] == [a, b, c] && [a, b, c] + [d] == [a, b, c, d];
  }

  // ---- The code of the waiting thread ----------------------------------------------

  /** What happens up to and including one access of the waiting thread: accesses of the
      signaller, each the start of a call or the next access of the call under way, and whether
      a kernel wait made or under way then goes on or gives up. */
  datatype Move = Call(permits: nat) | Go
  datatype Turn = Turn(moves: seq<Move>, woken: bool)

  function MovesOf(s: Sema, moves: seq<Move>): Sema
    decreases |moves|
  {
    if moves == [] then s
    else MovesOf(match moves[0] case Call(permits) => BeginSignal(s, permits) case Go => SignalStep(s), moves[1..])
  }

  function TurnOf(s: Sema, t: Turn): Sema { WaitStep(MovesOf(s, t.moves), t.woken) }

  function TurnsOf(s: Sema, turns: seq<Turn>): Sema
    decreases |turns|
  {
    if turns == [] then s else TurnOf(TurnsOf(s, turns[..|turns| - 1]), turns[|turns| - 1])
  }

  /** The permits the signaller may still add: the one it is about to, and those of its calls to come. */
  function Coming(s: Sema): nat { if s.signaller.SAdd? then s.signaller.permits else 0 }

  function Called(moves: seq<Move>): nat {
    if moves == [] then 0 else (if moves[0].Call? then moves[0].permits else 0) + Called(moves[1..])
  }

  function CalledIn(turns: seq<Turn>): nat { if turns == [] then 0 else Called(turns[0].moves) + CalledIn(turns[1..]) }

  /** The interference a caller may count on: `signal` is called with at least one permit, and
      the permits stay within the 64-bit count. */
  ghost predicate Fair(s: Sema, turns: seq<Turn>) {
    && (forall i, j :: 0 <= i < |turns| && 0 <= j < |turns[i].moves| && turns[i].moves[j].Call? ==>
          turns[i].moves[j].permits >= 1)
    && Permits(s) + Coming(s) + CalledIn(turns) < HALF_WORD
  }

  lemma {:induction false} MovesGood(s: Sema, moves: seq<Move>)
    requires Good(s) && Permits(s) + Coming(s) + Called(moves) < HALF_WORD
    requires forall j :: 0 <= j < |moves| && moves[j].Call? ==> moves[j].permits >= 1
    ensures var t := MovesOf(s, moves);
      && Good(t) && Permits(t) + Coming(t) <= Permits(s) + Coming(s) + Called(moves)
      && t.waiter == s.waiter && t.acquired == s.acquired && t.count >= s.count
    decreases |moves|
  {
    if moves != [] {
      var s' := match moves[0] case Call(permits) => BeginSignal(s, permits) case Go => SignalStep(s);
      NextGood(s, match moves[0] case Call(permits) => Signals(permits) case Go => SignallerStep);
      MovesGood(s', moves[1..]);
    }
  }

  /** The first turn and the others share the room there is. */
  lemma FairSplits(s: Sema, turns: seq<Turn>, i: nat)
    requires i < |turns| && Fair(s, turns[i..])
    ensures forall j :: 0 <= j < |turns[i].moves| && turns[i].moves[j].Call? ==> turns[i].moves[j].permits >= 1
    ensures Permits(s) + Coming(s) + Called(turns[i].moves) + CalledIn(turns[i + 1..]) < HALF_WORD
    ensures forall t: Sema {:trigger Fair(t, turns[i + 1..])} ::
      Permits(t) + Coming(t) + CalledIn(turns[i + 1..]) < HALF_WORD ==> Fair(t, turns[i + 1..])
  {
    hide Permits, Coming, Called;
    assert turns[i..][0] == turns[i] && turns[i..][1..] == turns[i + 1..];
  }

  lemma WaitGood(s: Sema, woken: bool)
    requires Good(s) && Permits(s) < HALF_WORD
    ensures var t := WaitStep(s, woken); Good(t) && Permits(t) <= Permits(s) && Coming(t) == Coming(s)
  {
    if s.waiter.pc != WIdle {
      hide WaitStep;
      WaitTakes(s, woken);
    }
  }

  lemma TurnGood(s: Sema, turns: seq<Turn>, i: nat)
    requires i < |turns| && Good(s) && Fair(s, turns[i..])
    ensures var m := MovesOf(s, turns[i].moves); var t := TurnOf(s, turns[i]);
      && Good(m) && m.waiter == s.waiter && m.acquired == s.acquired && m.count >= s.count
      && Good(t) && Fair(t, turns[i + 1..])
  {
    hide Good, Permits, Coming, Called, CalledIn, Fair, MovesOf, WaitStep;
    FairSplits(s, turns, i);
    MovesGood(s, turns[i].moves);
    WaitGood(MovesOf(s, turns[i].moves), turns[i].woken);
  }

  lemma TurnsStep(s: Sema, turns: seq<Turn>, i: nat)
    requires i < |turns|
    ensures TurnsOf(s, turns[..i + 1]) == TurnOf(TurnsOf(s, turns[..i]), turns[i])
  {
    assert turns[..i + 1][..i] == turns[..i];
  }

  class LightweightSemaphore {
    var mCount: int
    var kernel: nat
    var signaller: Signaller
    ghost var s: Sema

    ghost predicate Valid()
      reads this
    {
      mCount == s.count && kernel == s.tokens && signaller == s.signaller && Good(s)
    }

    constructor (initialCount: int)
      requires 0 <= initialCount < HALF_WORD
      ensures Valid() && s == Init(initialCount)
    {
      mCount, kernel, signaller := initialCount, 0, SIdle;
      s := Init(initialCount);
    }

    /** One access of `signal`; the assert is that of line 751. */
    method Signal()
      requires Valid() && Permits(s) + Coming(s) < HALF_WORD
      modifies this
      ensures Valid() && s == SignalStep(old(s))
    {
      NextGood(s, SignallerStep);
      match signaller {
        case SIdle =>
        case SAdd(permits) =>
          var oldCount := mCount;
          mCount := Plus(mCount, permits);
          assert oldCount >= -1;
          signaller := if oldCount < 0 then SPost else SIdle;
        case SPost =>
          kernel := kernel + 1;
          signaller := SIdle;
      }
      s := SignalStep(s);
    }

    /** The signaller's accesses between two accesses of the waiter. */
    method Interfere(moves: seq<Move>)
      requires Valid() && Permits(s) + Coming(s) + Called(moves) < HALF_WORD
      requires forall j :: 0 <= j < |moves| && moves[j].Call? ==> moves[j].permits >= 1
      modifies this
      ensures Valid() && s == MovesOf(old(s), moves)
    {
      hide Inv;
      var i := 0;
      while i < |moves|
        invariant 0 <= i <= |moves| && Valid() && Permits(s) + Coming(s) + Called(moves[i..]) < HALF_WORD
        invariant MovesOf(s, moves[i..]) == MovesOf(old(s), moves)
      {
        assert moves[i..][0] == moves[i] && moves[i..][1..] == moves[i + 1..];
        CountBelow(s);
        match moves[i] {
          case Call(permits) =>
            NextGood(s, Signals(permits));
            if signaller.SIdle? {
              signaller := SAdd(permits);
              s := BeginSignal(s, permits);
            }
          case Go => Signal();
        }
        i := i + 1;
      }
    }

    /** The interference before access `i` of the waiter, and what its access will lead to. */
    method Before(turns: seq<Turn>, i: nat, ghost start: Sema)
      requires i < |turns| && Valid() && Fair(s, turns[i..]) && s == TurnsOf(start, turns[..i])
      modifies this
      ensures Valid() && s.waiter == old(s.waiter) && s.acquired == old(s.acquired) && s.count >= old(s.count)
      ensures var t := WaitStep(s, turns[i].woken);
        Good(t) && Fair(t, turns[i + 1..]) && t == TurnsOf(start, turns[..i + 1])
    {
      hide Inv, WaitStep, TurnsOf, MovesOf;
      assert turns[i..][0] == turns[i] && turns[i..][1..] == turns[i + 1..];
      TurnGood(s, turns, i);
      TurnsStep(start, turns, i);
      Interfere(turns[i].moves);
    }

    /** Lines 727-735, from access `from` on; `None` when the turns run out first. */
    method TryWait(turns: seq<Turn>, from: nat, ghost start: Sema) returns (outcome: Option<bool>, i: nat)
      requires from <= |turns| && Valid() && s.waiter.pc == WTryLoad
      requires Fair(s, turns[from..]) && s == TurnsOf(start, turns[..from])
      modifies this
      ensures from <= i <= |turns| && Valid() && Fair(s, turns[i..]) && s == TurnsOf(start, turns[..i])
      ensures outcome.None? ==> i == |turns|
      ensures outcome == Some(true) ==> Returned(s, true) && s.acquired == old(s.acquired) + 1
      ensures outcome == Some(false) ==> s.acquired == old(s.acquired)
      ensures outcome == Some(false) && old(s.waiter.mode).Try? ==> Returned(s, false) && mCount == 0
      ensures outcome == Some(false) && old(s.waiter.mode).Wait? ==>
        s.waiter == Waiter(WSpin, old(s.waiter.mode), SPINS, old(s.waiter.result))
    {
      hide TurnsOf, Fair;
      i := from;
      if i == |turns| { return None, i; }
      Before(turns, i, start);
      var some := mCount > 0;
      s := WaitStep(s, turns[i].woken);
      i := i + 1;
      if some {
        if i == |turns| { return None, i; }
        Before(turns, i, start);
        mCount := Plus(mCount, -1);
        s := WaitStep(s, turns[i].woken);
        i := i + 1;
      }
      outcome := Some(some);
    }

    /** Lines 678-719. */
    method WaitWithPartialSpinning(timeoutUsecs: int, turns: seq<Turn>, from: nat, ghost start: Sema)
      returns (outcome: Option<bool>, i: nat)
      requires from <= |turns| && Valid() && s.waiter == Waiter(WSpin, Wait(timeoutUsecs), SPINS, s.waiter.result)
      requires Fair(s, turns[from..]) && s == TurnsOf(start, turns[..from])
      modifies this
      ensures from <= i <= |turns| && Valid() && Fair(s, turns[i..]) && s == TurnsOf(start, turns[..i])
      ensures outcome.None? ==> i == |turns|
      ensures outcome.Some? ==> Returned(s, outcome.value)
      ensures outcome == Some(true) ==> s.acquired == old(s.acquired) + 1
      ensures outcome == Some(false) ==> s.acquired == old(s.acquired) && mCount == 0
    {
      hide TurnsOf, Fair, Good, Permits;
      i := from;
      var spin := SPINS - 1;
      while spin >= 0
        invariant -1 <= spin < SPINS && from <= i <= |turns| && Valid()
        invariant s.waiter == Waiter(WSpin, Wait(timeoutUsecs), spin + 1, old(s.waiter.result))
        invariant s.acquired == old(s.acquired)
        invariant Fair(s, turns[i..]) && s == TurnsOf(start, turns[..i])
      {
        if i == |turns| { return None, i; }
        Before(turns, i, start);
        var some := mCount > 0;
        s := WaitStep(s, turns[i].woken);
        i := i + 1;
        if some {
          if i == |turns| { return None, i; }
          Before(turns, i, start);
          mCount := Plus(mCount, -1);
          s := WaitStep(s, turns[i].woken);
          i := i + 1;
          return Some(true), i;
        }
        spin := spin - 1;
      }
      if i == |turns| { return None, i; }
      Before(turns, i, start);
      var oldCount := mCount;
      mCount := Plus(mCount, -1);
      s := WaitStep(s, turns[i].woken);
      i := i + 1;
      if oldCount > 0 { return Some(true), i; }
      if timeoutUsecs != 0 {
        outcome, i := KernelWait(turns, i, start);
        if outcome != Some(false) { return; }
      }
      outcome, i := Undo(turns, i, start);
    }

    /** `m_sema.wait()` or `m_sema.timed_wait(..)`: blocks while there is no token, until it gives up. */
    method KernelWait(turns: seq<Turn>, from: nat, ghost start: Sema) returns (outcome: Option<bool>, i: nat)
      requires from <= |turns| && Valid() && s.waiter.pc == WKernel
      requires Fair(s, turns[from..]) && s == TurnsOf(start, turns[..from])
      modifies this
      ensures from <= i <= |turns| && Valid() && Fair(s, turns[i..]) && s == TurnsOf(start, turns[..i])
      ensures outcome.None? ==> i == |turns|
      ensures outcome == Some(true) ==> Returned(s, true) && s.acquired == old(s.acquired) + 1
      ensures outcome == Some(false) ==> s.waiter.pc == WUndo && s.acquired == old(s.acquired)
    {
      hide TurnsOf, Fair;
      i := from;
      while i < |turns|
        invariant from <= i <= |turns| && Valid() && s.waiter.pc == WKernel && s.acquired == old(s.acquired)
        invariant Fair(s, turns[i..]) && s == TurnsOf(start, turns[..i])
      {
        Before(turns, i, start);
        var token := kernel > 0;
        if turns[i].woken && token { kernel := kernel - 1; }
        s := WaitStep(s, turns[i].woken);
        i := i + 1;
        if !turns[i - 1].woken { return Some(false), i; }
        if token { return Some(true), i; }
      }
      outcome := None;
    }

    /** Lines 709-718: gives the count back, or takes the token that has come meanwhile. */
    method Undo(turns: seq<Turn>, from: nat, ghost start: Sema) returns (outcome: Option<bool>, i: nat)
      requires from <= |turns| && Valid() && s.waiter.pc == WUndo
      requires Fair(s, turns[from..]) && s == TurnsOf(start, turns[..from])
      modifies this
      ensures from <= i <= |turns| && Valid() && Fair(s, turns[i..]) && s == TurnsOf(start, turns[..i])
      ensures outcome.None? ==> i == |turns|
      ensures outcome.Some? ==> Returned(s, outcome.value)
      ensures outcome == Some(true) ==> s.acquired == old(s.acquired) + 1
      ensures outcome == Some(false) ==> s.acquired == old(s.acquired) && mCount == 0
    {
      hide TurnsOf, Fair;
      i := from;
      while true
        invariant from <= i <= |turns| && Valid() && s.waiter.pc == WUndo && s.acquired == old(s.acquired)
        invariant Fair(s, turns[i..]) && s == TurnsOf(start, turns[..i])
        decreases |turns| - i
      {
        if i == |turns| { return None, i; }
        Before(turns, i, start);
        var oldCount := mCount;
        mCount := Plus(mCount, 1);
        s := WaitStep(s, turns[i].woken);
        i := i + 1;
        if oldCount < 0 { return Some(false), i; }
        if i == |turns| { return None, i; }
        Before(turns, i, start);
        oldCount := mCount;
        mCount := Plus(mCount, -1);
        s := WaitStep(s, turns[i].woken);
        i := i + 1;
        if oldCount > 0 {
          if i == |turns| { return None, i; }
          Before(turns, i, start);
          var token := kernel > 0;
          if token { kernel := kernel - 1; }
          s := WaitStep(s, turns[i].woken);
          i := i + 1;
          if token { return Some(true), i; }
        }
      }
    }

    /** `wait(timeout_usecs)` under the given interference. A wait that returns true has taken
        exactly one permit; one that returns false has taken none, found none and left no trace:
        it is not registered and no token is left in the kernel semaphore. */
    method WaitFor(timeoutUsecs: int, turns: seq<Turn>) returns (outcome: Option<bool>, used: nat)
      requires Valid() && s.waiter.pc == WIdle && Fair(s, turns)
      modifies this
      ensures used <= |turns| && Valid() && s == TurnsOf(BeginWait(old(s), Wait(timeoutUsecs)), turns[..used])
      ensures outcome.None? ==> used == |turns|
      ensures outcome.Some? ==> Returned(s, outcome.value) && kernel == 0 && mCount == Permits(s)
      ensures outcome == Some(true) ==> s.acquired == old(s.acquired) + 1
      ensures outcome == Some(false) ==> s.acquired == old(s.acquired) && Permits(s) == 0
    {
      hide Fair;
      s := BeginWait(s, Wait(timeoutUsecs));
      FairStart(old(s), s, turns);
      ghost var start := s;
      assert turns[..0] == [];
      outcome, used := TryWait(turns, 0, start);
      if outcome == Some(false) {
        outcome, used := WaitWithPartialSpinning(timeoutUsecs, turns, used, start);
      }
    }
  }

  predicate Returned(s: Sema, result: bool) { s.waiter.pc == WIdle && s.waiter.result == Some(result) }

  lemma CountBelow(s: Sema)
    requires Inv(s)
    ensures s.count <= Permits(s)
  {
  }

  lemma FairStart(s: Sema, s': Sema, turns: seq<Turn>)
    requires Fair(s, turns) && Permits(s') == Permits(s) && s'.signaller == s.signaller
    ensures Fair(s', turns[0..])
  {
    assert turns[0..] == turns;
  }
}
