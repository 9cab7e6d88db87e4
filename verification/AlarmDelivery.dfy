/** What a run of the alarm worker does, in closed form: every effect as a function of the connections
    and of the outcomes of the attempts alone, and from it exactly which alarms are delivered. */
module AlarmDelivery {
  import opened Seqs
  import opened Options
  import opened AlarmWorker

  // ---- effects --------------------------------------------------------------------------------

  function AttemptEffects(id: int, outcome: Outcome): seq<Effect> {
    match outcome
    case DiagnosisFailed => []
    case SendFailed => [Diagnosed(id)]
    case SaveFailed => [Diagnosed(id), Sent(id)]
    case Delivered => [Diagnosed(id), Sent(id), Saved(id)]
  }

  function RetryEffects(config: Config, id: int, t: nat, attempt: nat, delay: real): seq<Effect>
    decreases config.maxAttempts - attempt
  {
    if attempt > config.maxAttempts then []
    else if config.outcome(t).Delivered? || attempt == config.maxAttempts then AttemptEffects(id, config.outcome(t))
    else
      AttemptEffects(id, config.outcome(t)) + [Slept(delay)]
      + RetryEffects(config, id, t + 1, attempt + 1, NextDelay(delay, config))
  }

  /** How many of the next `left` attempts fail before one delivers. */
  function Fails(config: Config, t: nat, left: nat): (n: nat)
    ensures n <= left
    decreases left
  {
    if left == 0 || config.outcome(t).Delivered? then 0 else 1 + Fails(config, t + 1, left - 1)
  }

  /** The alarm whose first attempt is number `t` does not exhaust its retries. */
  predicate Passes(config: Config, t: nat) {
    config.maxAttempts < 1 || Fails(config, t, config.maxAttempts) < config.maxAttempts
  }

  /** How many attempts it takes. */
  function Tries(config: Config, t: nat): nat {
    if config.maxAttempts < 1 then 0
    else if Passes(config, t) then Fails(config, t, config.maxAttempts) + 1
    else config.maxAttempts
  }

  /** How many of `n` alarms pass, from attempt `t` on, until one exhausts its retries. */
  function Passed(config: Config, t: nat, n: nat): (m: nat)
    ensures m <= n
    decreases n
  {
    if n == 0 || !Passes(config, t) then 0 else 1 + Passed(config, t + Tries(config, t), n - 1)
  }

  function TickAfter(config: Config, t: nat, n: nat): nat
    decreases n
  {
    if n == 0 then t
    else if !Passes(config, t) then t + Tries(config, t)
    else TickAfter(config, t + Tries(config, t), n - 1)
  }

  /** The effects of working off a list of alarms. */
  function Work(config: Config, t: nat, ids: seq<int>): seq<Effect>
    decreases |ids|
  {
    if ids == [] then []
    else
      RetryEffects(config, ids[0], t, 1, config.initialDelay)
      + (if Passes(config, t) then Work(config, t + Tries(config, t), ids[1..]) else [])
  }

  lemma AttemptLogs(w: World, id: int, outcome: Outcome)
    ensures Attempt(w, id, outcome).log == w.log + AttemptEffects(id, outcome)
  {
    NothingAppended(w.log);
  }

  lemma {:induction false} RetryLogs(w: World, id: int, config: Config, attempt: nat, delay: real)
    ensures Retry(w, id, config, attempt, delay).world.log == w.log + RetryEffects(config, id, w.tick, attempt, delay)
    decreases config.maxAttempts - attempt
  {
    NothingAppended(w.log);
    if attempt <= config.maxAttempts {
      var outcome := config.outcome(w.tick);
      var next, later := Attempt(w, id, outcome), NextDelay(delay, config);
      AttemptLogs(w, id, outcome);
      if !outcome.Delivered? && attempt < config.maxAttempts {
        RetryLogs(Sleep(next, delay), id, config, attempt + 1, later);
        Regroup(w.log, AttemptEffects(id, outcome), [Slept(delay)]);
        Regroup(w.log, AttemptEffects(id, outcome) + [Slept(delay)],
                RetryEffects(config, id, w.tick + 1, attempt + 1, later));
      }
    }
  }

  lemma {:induction false} RetryFails(w: World, id: int, config: Config, attempt: nat, delay: real)
    requires attempt <= config.maxAttempts
    ensures var done, left := Retry(w, id, config, attempt, delay), config.maxAttempts - attempt + 1;
            && (done.ok <==> Fails(config, w.tick, left) < left)
            && done.world.tick == w.tick + (if done.ok then Fails(config, w.tick, left) + 1 else left)
            && done.world.checkpoint == w.checkpoint
    decreases config.maxAttempts - attempt
  {
    var outcome := config.outcome(w.tick);
    var next := Attempt(w, id, outcome);
    if !outcome.Delivered? && attempt < config.maxAttempts {
      RetryFails(Sleep(next, delay), id, config, attempt + 1, NextDelay(delay, config));
    } else {
      assert Fails(config, w.tick + 1, 0) == 0;
    }
  }

  lemma DeliveryTries(w: World, id: int, config: Config)
    ensures var done := RetryDelivery(w, id, config);
            && (done.ok <==> Passes(config, w.tick)) && done.world.tick == w.tick + Tries(config, w.tick)
            && done.world.checkpoint == w.checkpoint
  {
    if config.maxAttempts >= 1 {
      RetryFails(w, id, config, 1, config.initialDelay);
    }
  }

  function Ids(alarms: seq<Alarm>): (ids: seq<int>)
    ensures |ids| == |alarms| && forall i | 0 <= i < |ids| :: ids[i] == alarms[i].id
  {
    seq(|alarms|, i requires 0 <= i < |alarms| => alarms[i].id)
  }

  lemma IdsStep(alarms: seq<Alarm>)
    requires alarms != []
    ensures Ids(alarms) == [alarms[0].id] + Ids(alarms[1..])
  {
  }

  lemma IdsAppend(a: seq<Alarm>, b: seq<Alarm>)
    ensures Ids(a + b) == Ids(a) + Ids(b)
  {
  }

  /** The checkpoint of the loop when all these alarms have passed. */
  function CheckpointAfter(alarms: seq<Alarm>, checkpoint: int): int {
    if alarms == [] then checkpoint else alarms[|alarms| - 1].id
  }

  lemma WorkStep(config: Config, t: nat, id: int, rest: seq<int>)
    ensures Work(config, t, [id] + rest)
         == RetryEffects(config, id, t, 1, config.initialDelay)
            + if Passes(config, t) then Work(config, t + Tries(config, t), rest) else []
  {
    assert ([id] + rest)[1..] == rest;
  }

  /** `done` is what comes of working off the alarms in `w`. */
  ghost predicate Worked(config: Config, w: World, done: Progress, alarms: seq<Alarm>) {
    && done.world.log == w.log + Work(config, w.tick, Ids(alarms))
    && done.world.tick == TickAfter(config, w.tick, |alarms|)
    && (done.ok <==> Passed(config, w.tick, |alarms|) == |alarms|)
  }

  lemma {:induction false} DeliverAllLogs(w: World, alarms: seq<Alarm>, config: Config)
    ensures Worked(config, w, DeliverAll(w, alarms, config), alarms)
    ensures DeliverAll(w, alarms, config).ok ==>
              DeliverAll(w, alarms, config).world.checkpoint == CheckpointAfter(alarms, w.checkpoint)
    decreases |alarms|
  {
    NothingAppended(w.log);
    if alarms == [] {
      assert Ids(alarms) == [];
    } else {
      var id, rest := alarms[0].id, alarms[1..];
      var effects := RetryEffects(config, id, w.tick, 1, config.initialDelay);
      IdsStep(alarms);
      WorkStep(config, w.tick, id, Ids(rest));
      RetryLogs(w, id, config, 1, config.initialDelay);
      DeliveryTries(w, id, config);
      NothingAppended(effects);
      var tried := RetryDelivery(w, id, config);
      if tried.ok {
        var next := tried.world.(processed := tried.world.processed + 1, checkpoint := id);
        DeliverAllLogs(next, rest, config);
        Regroup(w.log, effects, Work(config, next.tick, Ids(rest)));
      }
    }
  }

  // ---- one list of alarms after another -------------------------------------------------------

  lemma {:induction false} PassedInTwo(config: Config, t: nat, m: nat, n: nat)
    ensures Passed(config, t, m + n)
         == if Passed(config, t, m) == m then m + Passed(config, TickAfter(config, t, m), n) else Passed(config, t, m)
    ensures TickAfter(config, t, m + n)
         == if Passed(config, t, m) == m then TickAfter(config, TickAfter(config, t, m), n) else TickAfter(config, t, m)
    decreases m
  {
    if m == 0 {
    } else if Passes(config, t) {
      PassedInTwo(config, t + Tries(config, t), m - 1, n);
    }
  }

  /** What follows a list of `n` alarms from attempt `t` on. */
  function WorkBehind(config: Config, t: nat, n: nat, b: seq<int>): seq<Effect> {
    if Passed(config, t, n) == n then Work(config, TickAfter(config, t, n), b) else []
  }

  lemma WorkBehindOne(config: Config, t: nat, n: nat, b: seq<int>)
    requires n > 0
    ensures WorkBehind(config, t, n, b)
         == if Passes(config, t) then WorkBehind(config, t + Tries(config, t), n - 1, b) else []
  {
  }

  lemma {:induction false} WorkInTwo(config: Config, t: nat, a: seq<int>, b: seq<int>)
    ensures Work(config, t, a + b) == Work(config, t, a) + WorkBehind(config, t, |a|, b)
    decreases |a|
  {
    if a == [] {
      NothingAppended(b);
      NothingAppended(Work(config, t, b));
    } else {
      var effects := RetryEffects(config, a[0], t, 1, config.initialDelay);
      var t' := t + Tries(config, t);
      HeadAndRest(a);
      Regroup([a[0]], a[1..], b);
      WorkStep(config, t, a[0], a[1..] + b);
      WorkStep(config, t, a[0], a[1..]);
      WorkBehindOne(config, t, |a|, b);
      if Passes(config, t) {
        WorkInTwo(config, t', a[1..], b);
        Regroup(effects, Work(config, t', a[1..]), WorkBehind(config, t', |a| - 1, b));
      } else {
        NothingAppended(effects);
        NothingAppended(effects + []);
      }
    }
  }

  /** The alarms that a stream offers, each event tested against the checkpoint that the alarms before
      it leave when they pass. */
  function Taken(events: seq<seq<Row>>, filter: Filter, checkpoint: int): seq<Alarm>
    decreases |events|
  {
    if events == [] then []
    else
      var alarms := Kept(events[0], filter, checkpoint);
      alarms + Taken(events[1..], filter, CheckpointAfter(alarms, checkpoint))
  }

  lemma WorkedFirst(config: Config, w: World, done: Progress, alarms: seq<Alarm>, rest: seq<Alarm>)
    requires Worked(config, w, done, alarms) && !done.ok
    ensures Worked(config, w, done, alarms + rest)
  {
    IdsAppend(alarms, rest);
    WorkInTwo(config, w.tick, Ids(alarms), Ids(rest));
    PassedInTwo(config, w.tick, |alarms|, |rest|);
    NothingAppended(Work(config, w.tick, Ids(alarms)));
  }

  lemma WorkedBoth(config: Config, w: World, done: Progress, later: Progress, alarms: seq<Alarm>, rest: seq<Alarm>)
    requires Worked(config, w, done, alarms) && done.ok && Worked(config, done.world, later, rest)
    ensures Worked(config, w, later, alarms + rest)
  {
    IdsAppend(alarms, rest);
    WorkInTwo(config, w.tick, Ids(alarms), Ids(rest));
    PassedInTwo(config, w.tick, |alarms|, |rest|);
    Regroup(w.log, Work(config, w.tick, Ids(alarms)), Work(config, done.world.tick, Ids(rest)));
  }

  lemma {:induction false} FollowLogs(w: World, events: seq<seq<Row>>, config: Config)
    ensures Worked(config, w, Follow(w, events, config), Taken(events, config.filter, w.checkpoint))
    decreases |events|
  {
    if events == [] {
      NothingAppended(w.log);
      assert Ids(Taken(events, config.filter, w.checkpoint)) == [];
    } else {
      var alarms := Kept(events[0], config.filter, w.checkpoint);
      var rest := Taken(events[1..], config.filter, CheckpointAfter(alarms, w.checkpoint));
      var done := DeliverAll(w, alarms, config);
      DeliverAllLogs(w, alarms, config);
      if done.ok {
        FollowLogs(done.world, events[1..], config);
        WorkedBoth(config, w, done, Follow(done.world, events[1..], config), alarms, rest);
      } else {
        WorkedFirst(config, w, done, alarms, rest);
      }
    }
  }

  // ---- connections and runs -------------------------------------------------------------------

  /** What a connection does from attempt `t` on. */
  function Effects(config: Config, t: nat, connection: Connection): seq<Effect> {
    match connection
    case Refused => []
    case AnchorFailed => [Slept(config.initialDelay)]
    case Streamed(table, events, broken) =>
      var alarms := Taken(events, config.filter, Latest(table));
      StreamEffects(config, t, table, alarms)
      + (if broken || Passed(config, t, |alarms|) < |alarms| then [Slept(config.initialDelay)] else [])
    case Killed(table, events, at) =>
      FirstOf(StreamEffects(config, t, table, Taken(events, config.filter, Latest(table))), at)
  }

  function StreamEffects(config: Config, t: nat, table: seq<int>, alarms: seq<Alarm>): seq<Effect> {
    [Anchored(Latest(table))] + Work(config, t, Ids(alarms))
  }

  function TickOf(config: Config, t: nat, connection: Connection): nat {
    if connection.Streamed? || connection.Killed?
    then TickAfter(config, t, |Taken(connection.events, config.filter, Latest(connection.table))|)
    else t
  }

  lemma StreamLogs(w: World, table: seq<int>, events: seq<seq<Row>>, config: Config)
    ensures var done := Follow(Anchor(w, Latest(table)), events, config);
            var alarms := Taken(events, config.filter, Latest(table));
            && done.world.log == w.log + StreamEffects(config, w.tick, table, alarms)
            && done.world.tick == TickAfter(config, w.tick, |alarms|)
            && (done.ok <==> Passed(config, w.tick, |alarms|) == |alarms|)
  {
    var alarms := Taken(events, config.filter, Latest(table));
    FollowLogs(Anchor(w, Latest(table)), events, config);
    Regroup(w.log, [Anchored(Latest(table))], Work(config, w.tick, Ids(alarms)));
  }

  lemma FirstOfBehind<T>(a: seq<T>, b: seq<T>, n: nat)
    ensures FirstOf(a + b, |a| + n) == a + FirstOf(b, n)
  {
  }

  lemma ConnectLogs(w: World, connection: Connection, config: Config)
    ensures Connect(w, connection, config).log == w.log + Effects(config, w.tick, connection)
    ensures Connect(w, connection, config).tick == TickOf(config, w.tick, connection)
  {
    NothingAppended(w.log);
    match connection
    case Refused =>
    case AnchorFailed =>
    case Streamed(table, events, broken) =>
      var effects := StreamEffects(config, w.tick, table, Taken(events, config.filter, Latest(table)));
      StreamLogs(w, table, events, config);
      NothingAppended(effects);
      Regroup(w.log, effects, [Slept(config.initialDelay)]);
    case Killed(table, events, at) =>
      StreamLogs(w, table, events, config);
      FirstOfBehind(w.log, StreamEffects(config, w.tick, table, Taken(events, config.filter, Latest(table))), at);
  }

  function RunTick(connections: seq<Connection>, config: Config): nat {
    if connections == [] then 0
    else TickOf(config, RunTick(connections[..|connections| - 1], config), connections[|connections| - 1])
  }

  function RunEffects(connections: seq<Connection>, config: Config): seq<Effect> {
    if connections == [] then []
    else
      var init, last := connections[..|connections| - 1], connections[|connections| - 1];
      RunEffects(init, config) + Effects(config, RunTick(init, config), last)
  }

  /** Every run, whatever breaks, fails, is refused or is killed in it: its effects are those of its
      connections, one after the other. */
  lemma {:induction false} RunIsClosed(connections: seq<Connection>, config: Config)
    ensures Run(START, connections, config).log == RunEffects(connections, config)
    ensures Run(START, connections, config).tick == RunTick(connections, config)
  {
    if connections == [] {
    } else {
      var init, last := connections[..|connections| - 1], connections[|connections| - 1];
      RunIsClosed(init, config);
      ConnectLogs(Run(START, init, config), last, config);
    }
  }

  // ---- deliveries -----------------------------------------------------------------------------

  /** The alarms that deliveries checkpointed, in order. */
  function Saves(log: seq<Effect>): (ids: seq<int>)
    ensures |ids| <= |log|
  {
    if log == [] then []
    else
      var last := log[|log| - 1];
      Saves(log[..|log| - 1]) + (if last.Saved? then [last.id] else [])
  }

  lemma SavesSnoc(log: seq<Effect>, last: Effect)
    ensures Saves(log + [last]) == Saves(log) + if last.Saved? then [last.id] else []
  {
    PrefixOfSnoc(log, last);
  }

  lemma {:induction false} SavesAppend(a: seq<Effect>, b: seq<Effect>)
    ensures Saves(a + b) == Saves(a) + Saves(b)
  {
    if b == [] {
      NothingAppended(a);
      NothingAppended(Saves(a));
    } else {
      var init, last := b[..|b| - 1], b[|b| - 1];
      SavesAppend(a, init);
      SavesSnoc(a + init, last);
      InitAndLast(b);
      Regroup(a, init, [last]);
      Regroup(Saves(a), Saves(init), if last.Saved? then [last.id] else []);
    }
  }

  lemma OneEffectSaves(effect: Effect)
    ensures Saves([effect]) == if effect.Saved? then [effect.id] else []
  {
    SavesSnoc([], effect);
    NothingAppended([effect]);
  }

  lemma AttemptSaves(id: int, outcome: Outcome)
    ensures Saves(AttemptEffects(id, outcome)) == if outcome.Delivered? then [id] else []
  {
    SavesSnoc([], Diagnosed(id));
    SavesSnoc([Diagnosed(id)], Sent(id));
    SavesSnoc([Diagnosed(id), Sent(id)], Saved(id));
    OneByOne([], Diagnosed(id), Sent(id), Saved(id));
    assert [] + [Diagnosed(id)] == [Diagnosed(id)];
    assert [Diagnosed(id)] + [Sent(id)] == [Diagnosed(id), Sent(id)];
    assert [Diagnosed(id), Sent(id)] + [Saved(id)] == [Diagnosed(id), Sent(id), Saved(id)];
  }

  lemma {:induction false} RetrySaves(config: Config, id: int, t: nat, attempt: nat, delay: real)
    requires attempt <= config.maxAttempts
    ensures var left := config.maxAttempts - attempt + 1;
            Saves(RetryEffects(config, id, t, attempt, delay)) == if Fails(config, t, left) < left then [id] else []
    decreases config.maxAttempts - attempt
  {
    AttemptSaves(id, config.outcome(t));
    if !config.outcome(t).Delivered? && attempt < config.maxAttempts {
      var later := RetryEffects(config, id, t + 1, attempt + 1, NextDelay(delay, config));
      RetrySaves(config, id, t + 1, attempt + 1, NextDelay(delay, config));
      SavesAppend(AttemptEffects(id, config.outcome(t)) + [Slept(delay)], later);
      SavesSnoc(AttemptEffects(id, config.outcome(t)), Slept(delay));
    } else {
      assert Fails(config, t + 1, 0) == 0;
    }
  }

  lemma DeliverySaves(config: Config, t: nat, id: int)
    ensures Saves(RetryEffects(config, id, t, 1, config.initialDelay))
         == if config.maxAttempts < 1 || !Passes(config, t) then [] else [id]
  {
    if config.maxAttempts >= 1 {
      RetrySaves(config, id, t, 1, config.initialDelay);
    }
  }

  lemma WorkSavesStep(config: Config, t: nat, id: int, rest: seq<int>)
    ensures Saves(Work(config, t, [id] + rest))
         == (if config.maxAttempts < 1 || !Passes(config, t) then [] else [id])
            + (if Passes(config, t) then Saves(Work(config, t + Tries(config, t), rest)) else [])
  {
    var effects := RetryEffects(config, id, t, 1, config.initialDelay);
    var later := if Passes(config, t) then Work(config, t + Tries(config, t), rest) else [];
    WorkStep(config, t, id, rest);
    SavesAppend(effects, later);
    DeliverySaves(config, t, id);
  }

  /** What of these alarms is checkpointed. */
  function PassedOf(config: Config, t: nat, ids: seq<int>): seq<int> {
    if config.maxAttempts < 1 then [] else ids[..Passed(config, t, |ids|)]
  }

  lemma PassedOfStep(config: Config, t: nat, id: int, rest: seq<int>)
    ensures PassedOf(config, t, [id] + rest)
         == (if config.maxAttempts < 1 || !Passes(config, t) then [] else [id])
            + (if Passes(config, t) then PassedOf(config, t + Tries(config, t), rest) else [])
  {
    var ids := [id] + rest;
    if Passes(config, t) {
      TakeOneMore(ids, Passed(config, t + Tries(config, t), |rest|));
      assert ids[1..] == rest;
    }
  }

  /** Of a list of alarms exactly those that pass are checkpointed, in order; none is when no attempt is
      allowed at all. */
  lemma {:induction false} WorkSaves(config: Config, t: nat, ids: seq<int>)
    ensures SavesPassed(config, t, ids)
    decreases |ids|
  {
    if ids == [] {
    } else {
      WorkSaves(config, t + Tries(config, t), ids[1..]);
      OneMoreSaves(config, t, ids[0], ids[1..]);
      HeadAndRest(ids);
    }
  }

  ghost predicate SavesPassed(config: Config, t: nat, ids: seq<int>) {
    Saves(Work(config, t, ids)) == PassedOf(config, t, ids)
  }

  lemma OneMoreSaves(config: Config, t: nat, id: int, rest: seq<int>)
    requires SavesPassed(config, t + Tries(config, t), rest)
    ensures SavesPassed(config, t, [id] + rest)
  {
    WorkSavesStep(config, t, id, rest);
    PassedOfStep(config, t, id, rest);
  }

  lemma TakeOneMore(ids: seq<int>, m: nat)
    requires m < |ids|
    ensures ids[..m + 1] == [ids[0]] + ids[1..][..m]
  {
  }

  /** The alarms that a connection checkpoints. */
  function Deliveries(config: Config, t: nat, connection: Connection): seq<int> {
    Saves(Effects(config, t, connection))
  }

  lemma StreamSaves(config: Config, t: nat, table: seq<int>, alarms: seq<Alarm>)
    ensures Saves(StreamEffects(config, t, table, alarms))
         == PassedOf(config, t, Ids(alarms))
  {
    SavesAppend([Anchored(Latest(table))], Work(config, t, Ids(alarms)));
    OneEffectSaves(Anchored(Latest(table)));
    NothingAppended(Saves(Work(config, t, Ids(alarms))));
    WorkSaves(config, t, Ids(alarms));
  }

  /** A connection that is not killed checkpoints exactly the offered alarms that pass. */
  lemma ConnectionDelivers(config: Config, t: nat, table: seq<int>, events: seq<seq<Row>>, broken: bool)
    ensures var alarms := Taken(events, config.filter, Latest(table));
            Deliveries(config, t, Streamed(table, events, broken))
            == PassedOf(config, t, Ids(alarms))
  {
    var alarms := Taken(events, config.filter, Latest(table));
    var effects := StreamEffects(config, t, table, alarms);
    StreamSaves(config, t, table, alarms);
    SavesSnoc(effects, Slept(config.initialDelay));
    NothingAppended(effects);
    NothingAppended(Saves(effects));
  }

  lemma SavesOfPrefix(log: seq<Effect>, n: nat)
    ensures Saves(FirstOf(log, n)) <= Saves(log)
  {
    if n <= |log| {
      SplitAt(log, n);
      SavesAppend(log[..n], log[n..]);
    }
  }

  /** One that is killed checkpoints an initial part of them. */
  lemma KilledDeliversPrefix(config: Config, t: nat, table: seq<int>, events: seq<seq<Row>>, at: nat)
    ensures Deliveries(config, t, Killed(table, events, at))
         <= PassedOf(config, t, Ids(Taken(events, config.filter, Latest(table))))
  {
    var alarms := Taken(events, config.filter, Latest(table));
    StreamSaves(config, t, table, alarms);
    SavesOfPrefix(StreamEffects(config, t, table, alarms), at);
  }

  function AllDeliveries(connections: seq<Connection>, config: Config): seq<int> {
    if connections == [] then []
    else
      var init, last := connections[..|connections| - 1], connections[|connections| - 1];
      AllDeliveries(init, config) + Deliveries(config, RunTick(init, config), last)
  }

  /** Over every run, the alarms checkpointed are those of its connections, one after the other. */
  lemma {:induction false} RunDelivers(connections: seq<Connection>, config: Config)
    ensures Saves(Run(START, connections, config).log) == AllDeliveries(connections, config)
  {
    if connections == [] {
    } else {
      var init, last := connections[..|connections| - 1], connections[|connections| - 1];
      RunDelivers(init, config);
      RunIsClosed(init, config);
      ConnectLogs(Run(START, init, config), last, config);
      SavesAppend(Run(START, init, config).log, Effects(config, RunTick(init, config), last));
    }
  }

  ghost predicate SomeDelivers(connections: seq<Connection>, config: Config, id: int) {
    exists k | 0 <= k < |connections| :: id in Deliveries(config, RunTick(connections[..k], config), connections[k])
  }

  lemma SomeDeliversStep(before: seq<Connection>, last: Connection, config: Config, id: int)
    ensures SomeDelivers(before + [last], config, id)
       <==> SomeDelivers(before, config, id) || id in Deliveries(config, RunTick(before, config), last)
  {
    var all := before + [last];
    PrefixOfSnoc(before, last);
    forall k | 0 <= k < |before| ensures all[k] == before[k] && all[..k] == before[..k] {
      PrefixOfFirst(before, [last], k);
    }
  }

  lemma {:induction false} DeliveredBySome(connections: seq<Connection>, config: Config, id: int)
    ensures id in AllDeliveries(connections, config) <==> SomeDelivers(connections, config, id)
  {
    if connections == [] {
    } else {
      var init, last := connections[..|connections| - 1], connections[|connections| - 1];
      DeliveredBySome(init, config, id);
      InitAndLast(connections);
      SomeDeliversStep(init, last, config, id);
    }
  }

  // ---- which alarms these are -----------------------------------------------------------------

  ghost predicate Ascending(alarms: seq<Alarm>) {
    forall i, j | 0 <= i < j < |alarms| :: alarms[i].id < alarms[j].id
  }

  ghost predicate AllAbove(alarms: seq<Alarm>, bound: int) {
    forall i | 0 <= i < |alarms| :: alarms[i].id > bound
  }

  ghost function AlarmIds(alarms: seq<Alarm>): set<int> { set i | 0 <= i < |alarms| :: alarms[i].id }

  ghost function RowIds(rows: seq<Row>): set<int> { set i | 0 <= i < |rows| && rows[i].Some? :: rows[i].value.id }

  /** The readable rows of an event come with ascending ids. */
  ghost predicate RowsAscend(rows: seq<Row>) {
    forall i, j | 0 <= i < j < |rows| && rows[i].Some? && rows[j].Some? :: rows[i].value.id < rows[j].value.id
  }

  lemma {:induction false} KeptIsOrdered(rows: seq<Row>, filter: Filter, checkpoint: int)
    requires RowsAscend(rows)
    ensures Ascending(Kept(rows, filter, checkpoint)) && AllAbove(Kept(rows, filter, checkpoint), checkpoint)
    ensures AlarmIds(Kept(rows, filter, checkpoint)) <= RowIds(rows)
  {
    if rows == [] {
    } else {
      var before, row := rows[..|rows| - 1], rows[|rows| - 1];
      KeptIsOrdered(before, filter, checkpoint);
      var alarms := Kept(before, filter, checkpoint);
      assert forall i | 0 <= i < |before| :: before[i] == rows[i];
      assert RowIds(before) <= RowIds(rows);
      forall i | 0 <= i < |alarms| ensures row.Some? ==> alarms[i].id < row.value.id {
        assert alarms[i].id in AlarmIds(alarms);
      }
    }
  }

  /** A row is kept exactly when it is readable, newer than the checkpoint, and of the system and one of the
      events asked for. */
  lemma {:induction false} KeptIff(rows: seq<Row>, filter: Filter, checkpoint: int, alarm: Alarm)
    ensures alarm in Kept(rows, filter, checkpoint)
       <==> && Some(alarm) in rows && alarm.id > checkpoint
            && alarm.sysCode == filter.sysCode && alarm.eventCode in filter.eventCodes
  {
    if rows == [] {
    } else {
      KeptIff(rows[..|rows| - 1], filter, checkpoint, alarm);
      assert rows == rows[..|rows| - 1] + [rows[|rows| - 1]];
    }
  }

  /** All rows of a stream, in order. */
  function Rows(events: seq<seq<Row>>): seq<Row>
    decreases |events|
  {
    if events == [] then [] else events[0] + Rows(events[1..])
  }

  lemma {:induction false} KeptAppend(a: seq<Row>, b: seq<Row>, filter: Filter, checkpoint: int)
    ensures Kept(a + b, filter, checkpoint) == Kept(a, filter, checkpoint) + Kept(b, filter, checkpoint)
  {
    if b == [] {
      assert a + b == a;
    } else {
      var init, last := b[..|b| - 1], b[|b| - 1];
      KeptAppend(a, init, filter, checkpoint);
      KeptSnoc(a + init, last, filter, checkpoint);
      KeptSnoc(init, last, filter, checkpoint);
      assert a + init + [last] == a + b && init + [last] == b;
    }
  }

  lemma KeptSnoc(rows: seq<Row>, last: Row, filter: Filter, checkpoint: int)
    ensures Kept(rows + [last], filter, checkpoint)
         == Kept(rows, filter, checkpoint) + if IsKept(last, filter, checkpoint) then [last.value] else []
  {
    assert (rows + [last])[..|rows|] == rows;
  }

  /** Raising the checkpoint to below the readable rows to come changes nothing for them. */
  lemma {:induction false} KeptAboveBoth(rows: seq<Row>, filter: Filter, low: int, high: int)
    requires forall i | 0 <= i < |rows| && rows[i].Some? :: rows[i].value.id > low && rows[i].value.id > high
    ensures Kept(rows, filter, low) == Kept(rows, filter, high)
  {
    if rows == [] {
    } else {
      KeptAboveBoth(rows[..|rows| - 1], filter, low, high);
    }
  }

  /** The readable rows of a whole stream come with ascending ids. */
  ghost predicate StreamAscends(events: seq<seq<Row>>) { RowsAscend(Rows(events)) }

  lemma StreamTailAscends(events: seq<seq<Row>>)
    requires events != [] && StreamAscends(events)
    ensures RowsAscend(events[0]) && StreamAscends(events[1..])
    ensures forall a, b | a in events[0] && b in Rows(events[1..]) && a.Some? && b.Some? :: a.value.id < b.value.id
  {
    var all, first, rest := Rows(events), events[0], Rows(events[1..]);
    assert forall i | 0 <= i < |first| :: all[i] == first[i];
    assert forall i | 0 <= i < |rest| :: all[|first| + i] == rest[i];
  }

  lemma KeptOfStream(events: seq<seq<Row>>, filter: Filter, checkpoint: int)
    requires events != []
    ensures Kept(Rows(events), filter, checkpoint)
         == Kept(events[0], filter, checkpoint) + Kept(Rows(events[1..]), filter, checkpoint)
  {
    KeptAppend(events[0], Rows(events[1..]), filter, checkpoint);
  }

  /** After an event the checkpoint is unchanged or the id of one of its rows: below all later ones. */
  lemma CheckpointStaysBehind(events: seq<seq<Row>>, filter: Filter, low: int, high: int)
    requires events != [] && StreamAscends(events)
    requires high == CheckpointAfter(Kept(events[0], filter, low), low)
    ensures Kept(Rows(events[1..]), filter, high) == Kept(Rows(events[1..]), filter, low)
  {
    var alarms, rest := Kept(events[0], filter, low), Rows(events[1..]);
    if alarms != [] {
      var last := alarms[|alarms| - 1];
      KeptIff(events[0], filter, low, last);
      StreamTailAscends(events);
      forall i | 0 <= i < |rest| && rest[i].Some? ensures rest[i].value.id > low && rest[i].value.id > high {
        assert Some(last) in events[0] && rest[i] in rest;
      }
      KeptAboveBoth(rest, filter, low, high);
    }
  }

  /** Over a stream in which ids ascend, testing each event against the moving checkpoint takes what
      testing all rows against the anchor keeps. */
  lemma {:induction false} TakenIsKept(events: seq<seq<Row>>, filter: Filter, checkpoint: int)
    requires StreamAscends(events)
    ensures Taken(events, filter, checkpoint) == Kept(Rows(events), filter, checkpoint)
    decreases |events|
  {
    if events == [] {
    } else {
      var next := CheckpointAfter(Kept(events[0], filter, checkpoint), checkpoint);
      StreamTailAscends(events);
      TakenIsKept(events[1..], filter, next);
      CheckpointStaysBehind(events, filter, checkpoint, next);
      KeptOfStream(events, filter, checkpoint);
    }
  }

  /** Some readable row of the stream that matches the filter has this id. */
  ghost predicate Offers(events: seq<seq<Row>>, filter: Filter, id: int) {
    exists alarm :: Some(alarm) in Rows(events) && alarm.id == id && alarm.sysCode == filter.sysCode
                    && alarm.eventCode in filter.eventCodes
  }

  lemma KeptIdIff(rows: seq<Row>, filter: Filter, checkpoint: int, id: int)
    ensures id in Ids(Kept(rows, filter, checkpoint))
       <==> id > checkpoint && exists alarm :: Some(alarm) in rows && alarm.id == id && Matches(alarm, filter)
  {
    var alarms := Kept(rows, filter, checkpoint);
    forall alarm ensures alarm in alarms <==> Some(alarm) in rows && alarm.id > checkpoint && Matches(alarm, filter) {
      KeptIff(rows, filter, checkpoint, alarm);
    }
    if id in Ids(alarms) {
      var i :| 0 <= i < |alarms| && Ids(alarms)[i] == id;
      assert alarms[i] in alarms;
    }
    if alarm :| alarm in alarms && alarm.id == id {
      var i :| 0 <= i < |alarms| && alarms[i] == alarm;
      assert Ids(alarms)[i] == id;
    }
  }

  /** The alarms of a list up to number `p` pass: a condition on the outcomes alone. */
  ghost predicate PassThrough(config: Config, t: nat, p: nat) {
    forall q: nat | q <= p :: Passes(config, TickAfter(config, t, q))
  }

  lemma PassThroughStep(config: Config, t: nat, p: nat)
    ensures PassThrough(config, t, p)
       <==> Passes(config, t) && (p == 0 || PassThrough(config, t + Tries(config, t), p - 1))
  {
    var t' := t + Tries(config, t);
    assert TickAfter(config, t, 0) == t;
    if PassThrough(config, t, p) && p > 0 {
      assert Passes(config, TickAfter(config, t, 0));
      forall q: nat | q <= p - 1 ensures Passes(config, TickAfter(config, t', q)) {
        assert TickAfter(config, t', q) == TickAfter(config, t, q + 1);
      }
    }
    if Passes(config, t) && (p == 0 || PassThrough(config, t', p - 1)) {
      forall q: nat | q <= p ensures Passes(config, TickAfter(config, t, q)) {
        assert q > 0 ==> TickAfter(config, t, q) == TickAfter(config, t', q - 1);
      }
    }
  }

  lemma {:induction false} PassedIff(config: Config, t: nat, n: nat, p: nat)
    ensures p < Passed(config, t, n) <==> p < n && PassThrough(config, t, p)
    decreases n
  {
    PassThroughStep(config, t, p);
    if n == 0 {
    } else if Passes(config, t) && p > 0 {
      PassedIff(config, t + Tries(config, t), n - 1, p - 1);
    }
  }

  /** All matching rows of the connection up to this id pass. */
  ghost predicate PassUpTo(config: Config, t: nat, kept: seq<Alarm>, id: int) {
    forall q: nat | q < |kept| && kept[q].id <= id :: Passes(config, TickAfter(config, t, q))
  }

  lemma PassUpToIff(config: Config, t: nat, kept: seq<Alarm>, p: nat)
    requires Ascending(kept) && p < |kept|
    ensures PassUpTo(config, t, kept, kept[p].id) <==> PassThrough(config, t, p)
  {
    forall q: nat | q < |kept| ensures kept[q].id <= kept[p].id <==> q <= p {
    }
  }

  lemma PrefixHolds(config: Config, t: nat, kept: seq<Alarm>, id: int)
    requires Ascending(kept)
    ensures id in Ids(kept)[..Passed(config, t, |kept|)] <==> id in Ids(kept) && PassUpTo(config, t, kept, id)
  {
    var ids, m := Ids(kept), Passed(config, t, |kept|);
    if id in ids {
      var p :| 0 <= p < |kept| && ids[p] == id;
      PassedIff(config, t, |kept|, p);
      PassUpToIff(config, t, kept, p);
      assert p < m ==> ids[..m][p] == id;
      assert forall q | 0 <= q < |kept| && ids[q] == id :: q == p;
    }
  }

  /** A connection over ascending ids delivers an alarm exactly when a readable, matching row of its
      stream has it, it is newer than every row that was in the table on connecting, and no such alarm
      up to it exhausts its retries. */
  lemma ConnectionDeliversIff(config: Config, t: nat, table: seq<int>, events: seq<seq<Row>>, broken: bool, id: int)
    requires config.maxAttempts >= 1 && StreamAscends(events)
    ensures id in Deliveries(config, t, Streamed(table, events, broken))
       <==> id > Latest(table) && Offers(events, config.filter, id)
            && PassUpTo(config, t, Kept(Rows(events), config.filter, Latest(table)), id)
  {
    ConnectionDelivers(config, t, table, events, broken);
    TakenIsKept(events, config.filter, Latest(table));
    KeptIsOrdered(Rows(events), config.filter, Latest(table));
    KeptIdIff(Rows(events), config.filter, Latest(table), id);
    PrefixHolds(config, t, Kept(Rows(events), config.filter, Latest(table)), id);
  }

  /** Over every run an alarm is delivered exactly when some connection delivers it. */
  lemma RunDeliversIff(connections: seq<Connection>, config: Config, id: int)
    ensures id in Saves(Run(START, connections, config).log) <==> SomeDelivers(connections, config, id)
  {
    RunDelivers(connections, config);
    DeliveredBySome(connections, config, id);
  }
}
