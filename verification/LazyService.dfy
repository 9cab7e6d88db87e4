/** Lazy initialisation with a double check: any number of threads call `get` on one provider. */
module LazyService {
  import opened Options

  type Thread = nat

  /** The service the factory built, or the SQL-only one used when it raised. */
  datatype Service = Built(identity: int) | SqlOnly(error: string)

  datatype FactoryOutcome = Returns(identity: int) | Raises(error: string)

  function ServiceOf(o: FactoryOutcome): Service {
    match o
    case Returns(identity) => Built(identity)
    case Raises(error) => SqlOnly(error)
  }

  // ---- one caller at a time -------------------------------------------------------------------

  /** The service behind `get`, and how often the factory has run, after one undisturbed call. */
  function ServiceAfter(service: Option<Service>, factory: FactoryOutcome): Service {
    if service.Some? then service.value else ServiceOf(factory)
  }

  function CallsAfter(service: Option<Service>, calls: nat): nat {
    if service.Some? then calls else calls + 1
  }

  class TaskServiceProvider {
    var service: Option<Service>
    var lastError: Option<string>
    var factoryCalls: nat

    constructor ()
      ensures service == None && lastError == None && factoryCalls == 0
    {
      service, lastError, factoryCalls := None, None, 0;
    }

    /** `factory` is what the factory would do if called now. */
    method Get(factory: FactoryOutcome) returns (s: Service)
      modifies this
      ensures service == Some(s) && s == ServiceAfter(old(service), factory)
      ensures factoryCalls == CallsAfter(old(service), old(factoryCalls))
      ensures lastError == if old(service).Some? then old(lastError)
                           else if factory.Raises? then Some(factory.error) else None
    {
      if service.Some? {
        return service.value;
      }
      factoryCalls := factoryCalls + 1;
      match factory {
        case Returns(identity) =>
          service := Some(Built(identity));
          lastError := None;
        case Raises(error) =>
          lastError := Some(error);
          service := Some(SqlOnly(error));
      }
      s := service.value;
    }
  }

  // ---- any interleaving -----------------------------------------------------------------------

  /** Where a thread stands inside `get`. */
  datatype Pc =
    | Outside      // not in get, or back from it
    | Seen         // the first check found a service; about to return it
    | AtLock       // the first check found none; waiting for the lock
    | Locked       // holds the lock, before the second check
    | Building     // holds the lock, the factory is running
    | Returning    // holds the lock, about to return the service

  datatype Step =
    | FirstCheck(thread: Thread)
    | ReturnSeen(thread: Thread)
    | Acquire(thread: Thread)
    | SecondCheck(thread: Thread)
    | FactoryEnds(thread: Thread, outcome: FactoryOutcome)
    | ReturnAndRelease(thread: Thread)

  datatype State = State(
    service: Option<Service>,
    lock: Option<Thread>,
    pcs: map<Thread, Pc>,
    factoryCalls: nat,
    results: seq<Service>)   // what the calls of get have returned so far

  const INITIAL := State(None, None, map[], 0, [])

  function PcOf(s: State, t: Thread): Pc { if t in s.pcs then s.pcs[t] else Outside }

  function Move(s: State, t: Thread, pc: Pc): State { s.(pcs := s.pcs[t := pc]) }

  /** One atomic step of a thread; a step that is not possible changes nothing. */
  function Next(s: State, step: Step): State {
    var t := step.thread;
    match step
    case FirstCheck(_) =>
      if PcOf(s, t) != Outside then s
      else Move(s, t, if s.service.Some? then Seen else AtLock)
    case ReturnSeen(_) =>
      if PcOf(s, t) != Seen || s.service.None? then s
      else Move(s, t, Outside).(results := s.results + [s.service.value])
    case Acquire(_) =>
      if PcOf(s, t) != AtLock || s.lock.Some? then s
      else Move(s, t, Locked).(lock := Some(t))
    case SecondCheck(_) =>
      if PcOf(s, t) != Locked then s
      else if s.service.Some? then Move(s, t, Returning)
      else Move(s, t, Building).(factoryCalls := s.factoryCalls + 1)
    case FactoryEnds(_, outcome) =>
      if PcOf(s, t) != Building then s
      else Move(s, t, Returning).(service := Some(ServiceOf(outcome)))
    case ReturnAndRelease(_) =>
      if PcOf(s, t) != Returning || s.service.None? then s
      else Move(s, t, Outside).(results := s.results + [s.service.value], lock := None)
  }

  function Run(s: State, steps: seq<Step>): State {
    if steps == [] then s else Next(Run(s, steps[..|steps| - 1]), steps[|steps| - 1])
  }

  ghost predicate Inv(s: State) {
    && (forall t: Thread :: PcOf(s, t) in {Locked, Building, Returning} <==> s.lock == Some(t))
    && (forall t: Thread :: PcOf(s, t) in {Seen, Returning} ==> s.service.Some?)
    && (forall t: Thread :: PcOf(s, t) == Building ==> s.service.None?)
    && s.factoryCalls == (if s.service.Some? || exists t: Thread :: PcOf(s, t) == Building then 1 else 0)
    && (forall i | 0 <= i < |s.results| :: s.service == Some(s.results[i]))
  }

  lemma PcAfterMove(s: State, t: Thread, pc: Pc)
    ensures forall u: Thread :: PcOf(Move(s, t, pc), u) == if u == t then pc else PcOf(s, u)
  {
  }

  lemma NextKeepsInv(s: State, step: Step)
    requires Inv(s)
    ensures Inv(Next(s, step))
    ensures s.service.Some? ==> Next(s, step).service == s.service
  {
    var s' := Next(s, step);
    var t := step.thread;
    if s' != s {
      PcAfterMove(s, t, PcOf(s', t));
      assert forall u: Thread :: PcOf(s', u) == if u == t then PcOf(s', t) else PcOf(s, u);
      CallsAgree(s, step);
    }
  }

  /** The lock lets one thread at a time run the factory, and only while there is no service. */
  lemma CallsAgree(s: State, step: Step)
    requires Inv(s)
    ensures var s' := Next(s, step);
            s'.factoryCalls == (if s'.service.Some? || exists t: Thread :: PcOf(s', t) == Building then 1 else 0)
  {
    var s' := Next(s, step);
    var t := step.thread;
    if PcOf(s', t) != Building {
      if u: Thread :| PcOf(s', u) == Building {
        assert PcOf(s, u) == Building;
      }
      if u: Thread :| PcOf(s, u) == Building && u != t {
        assert PcOf(s', u) == Building;
      }
    } else if PcOf(s, t) != Building {
      assert forall u: Thread :: PcOf(s, u) == Building ==> s.lock == Some(u);
    }
  }

  lemma {:induction false} RunKeepsInv(steps: seq<Step>)
    ensures Inv(Run(INITIAL, steps))
  {
    if steps == [] {
    } else {
      RunKeepsInv(steps[..|steps| - 1]);
      NextKeepsInv(Run(INITIAL, steps[..|steps| - 1]), steps[|steps| - 1]);
    }
  }

  /** Whatever the interleaving, the factory runs at most once, even when it raises, and every `get`
      returns the same service. */
  lemma FactoryRunsOnce(steps: seq<Step>)
    ensures Run(INITIAL, steps).factoryCalls <= 1
    ensures forall i, j | 0 <= i < j < |Run(INITIAL, steps).results| ::
              Run(INITIAL, steps).results[i] == Run(INITIAL, steps).results[j]
  {
    RunKeepsInv(steps);
  }

  /** Once set, the service never changes. */
  lemma {:induction false} ServiceIsStable(steps: seq<Step>, more: seq<Step>)
    requires Run(INITIAL, steps).service.Some?
    ensures Run(INITIAL, steps + more).service == Run(INITIAL, steps).service
    decreases |more|
  {
    if more == [] {
      assert steps + more == steps;
    } else {
      var all := steps + more;
      assert all[..|all| - 1] == steps + more[..|more| - 1];
      ServiceIsStable(steps, more[..|more| - 1]);
      RunKeepsInv(all[..|all| - 1]);
      NextKeepsInv(Run(INITIAL, all[..|all| - 1]), all[|all| - 1]);
    }
  }

  /** Nobody is stuck for good: while a service is missing and a thread waits, some thread can move
      the initialisation on. */
  lemma WaitingMakesProgress(steps: seq<Step>, waiting: Thread)
    requires PcOf(Run(INITIAL, steps), waiting) == AtLock
    ensures exists step: Step :: Next(Run(INITIAL, steps), step) != Run(INITIAL, steps) && !step.FirstCheck?
  {
    var s := Run(INITIAL, steps);
    RunKeepsInv(steps);
    var step: Step;
    if s.lock.None? {
      step := Acquire(waiting);
    } else {
      var holder := s.lock.value;
      step := if PcOf(s, holder) == Locked then SecondCheck(holder)
              else if PcOf(s, holder) == Building then FactoryEnds(holder, Returns(0))
              else ReturnAndRelease(holder);
      PcAfterMove(s, holder, PcOf(Next(s, step), holder));
    }
    assert PcOf(Next(s, step), step.thread) != PcOf(s, step.thread);
  }

  /** The steps of one call that no other thread disturbs. */
  function CallSteps(s: State, t: Thread, factory: FactoryOutcome): seq<Step> {
    if s.service.Some? then [FirstCheck(t), ReturnSeen(t)]
    else [FirstCheck(t), Acquire(t), SecondCheck(t), FactoryEnds(t, factory), ReturnAndRelease(t)]
  }

  lemma RunSnoc(s: State, steps: seq<Step>, step: Step)
    ensures Run(s, steps + [step]) == Next(Run(s, steps), step)
  {
    assert (steps + [step])[..|steps + [step]| - 1] == steps;
  }

  lemma RunTwo(s: State, a: Step, b: Step)
    ensures Run(s, [a, b]) == Next(Next(s, a), b)
  {
    RunSnoc(s, [], a);
    RunSnoc(s, [a], b);
    assert [] + [a] == [a] && [a] + [b] == [a, b];
  }

  lemma RunFive(s: State, a: Step, b: Step, c: Step, d: Step, e: Step)
    ensures Run(s, [a, b, c, d, e]) == Next(Next(Next(Next(Next(s, a), b), c), d), e)
  {
    RunTwo(s, a, b);
    RunSnoc(s, [a, b], c);
    RunSnoc(s, [a, b, c], d);
    RunSnoc(s, [a, b, c, d], e);
    assert [a, b] + [c] == [a, b, c] && [a, b, c] + [d] == [a, b, c, d] && [a, b, c, d] + [e] == [a, b, c, d, e];
  }

  /** Taken on its own, a call in the machine does what the method of the class does. */
  lemma UndisturbedCallIsGet(s: State, t: Thread, factory: FactoryOutcome)
    requires PcOf(s, t) == Outside && (s.service.None? ==> s.lock.None?)
    ensures var after := Run(s, CallSteps(s, t, factory));
            && after.service == Some(ServiceAfter(s.service, factory))
            && after.results == s.results + [ServiceAfter(s.service, factory)]
            && after.factoryCalls == CallsAfter(s.service, s.factoryCalls)
            && after.lock == s.lock && PcOf(after, t) == Outside
  {
    if s.service.Some? {
      RunTwo(s, FirstCheck(t), ReturnSeen(t));
    } else {
      RunFive(s, FirstCheck(t), Acquire(t), SecondCheck(t), FactoryEnds(t, factory), ReturnAndRelease(t));
    }
  }
}
