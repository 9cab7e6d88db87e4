/** The alarm worker: anchor to the newest row of the alarm table, follow the inserted rows, deliver
    each matching alarm with retries, and save a checkpoint after each delivery. */
module AlarmWorker {
  import opened Seqs
  import opened Options

  // ---- alarms and their filter ----------------------------------------------------------------

  datatype Alarm = Alarm(id: int, content: string, sysCode: string, eventCode: string)

  datatype Filter = Filter(sysCode: string, eventCodes: seq<string>)

  predicate Matches(alarm: Alarm, filter: Filter) {
    alarm.sysCode == filter.sysCode && alarm.eventCode in filter.eventCodes
  }

  /** A row that lacks a field, or whose id is no number, is read as `None`. */
  type Row = Option<Alarm>

  predicate IsKept(row: Row, filter: Filter, checkpoint: int) {
    row.Some? && row.value.id > checkpoint && Matches(row.value, filter)
  }

  function Kept(rows: seq<Row>, filter: Filter, checkpoint: int): (alarms: seq<Alarm>)
    ensures |alarms| <= |rows|
  {
    if rows == [] then []
    else
      var row := rows[|rows| - 1];
      Kept(rows[..|rows| - 1], filter, checkpoint) + (if IsKept(row, filter, checkpoint) then [row.value] else [])
  }

  /** `extract_inserted_alarm_records`. */
  method ExtractInsertedAlarmRecords(rows: seq<Row>, filter: Filter, checkpoint: int) returns (alarms: seq<Alarm>)
    ensures alarms == Kept(rows, filter, checkpoint)
  {
    alarms := [];
    for i := 0 to |rows|
      invariant alarms == Kept(rows[..i], filter, checkpoint)
    {
      assert rows[..i + 1][..i] == rows[..i];
      if rows[i].None? {
        continue;
      }
      var alarm := rows[i].value;
      if alarm.id <= checkpoint {
        continue;
      }
      if Matches(alarm, filter) {
        alarms := alarms + [alarm];
      }
    }
    assert rows[..|rows|] == rows;
  }

  // ---- the outside world ----------------------------------------------------------------------

  /** How far one delivery attempt gets. */
  datatype Outcome = DiagnosisFailed | SendFailed | SaveFailed | Delivered

  datatype Effect =
    | Diagnosed(id: int)    // a diagnosis was completed
    | Sent(id: int)         // the webhook took the report
    | Saved(id: int)        // the checkpoint was saved after a delivery
    | Anchored(latest: int) // the checkpoint was saved on connecting
    | Slept(seconds: real)

  datatype Config = Config(filter: Filter, maxAttempts: int, initialDelay: real, maxDelay: real,
                           outcome: nat -> Outcome)

  /** `stored` is the content of the checkpoint file, 0 when there is none; `tick` counts attempts. */
  datatype World = World(checkpoint: int, stored: int, processed: nat, failed: nat, log: seq<Effect>, tick: nat)

  /** One connection: refused, which ends the service until it is started again; lost before its
      anchor was saved; streamed, with the ids then in the table, until it breaks; or streamed by a
      process that is killed when `at` of its effects have taken place. */
  datatype Connection =
    | Refused
    | AnchorFailed
    | Streamed(table: seq<int>, events: seq<seq<Row>>, broken: bool)
    | Killed(table: seq<int>, events: seq<seq<Row>>, at: nat)

  predicate EndsService(connection: Connection) { connection.Refused? || connection.Killed? }

  predicate IsSave(effect: Effect) { effect.Saved? || effect.Anchored? }

  function SavedValue(effect: Effect): int
    requires IsSave(effect)
  {
    if effect.Saved? then effect.id else effect.latest
  }

  /** What the checkpoint file holds after these effects. */
  function LastSaved(log: seq<Effect>): int {
    if log == [] then 0
    else if IsSave(log[|log| - 1]) then SavedValue(log[|log| - 1])
    else LastSaved(log[..|log| - 1])
  }

  function Attempt(w: World, id: int, outcome: Outcome): World {
    var next := w.(tick := w.tick + 1);
    match outcome
    case DiagnosisFailed => next
    case SendFailed => next.(log := w.log + [Diagnosed(id)])
    case SaveFailed => next.(log := w.log + [Diagnosed(id), Sent(id)])
    case Delivered => next.(log := w.log + [Diagnosed(id), Sent(id), Saved(id)], stored := id)
  }

  function Sleep(w: World, seconds: real): World { w.(log := w.log + [Slept(seconds)]) }

  function NextDelay(delay: real, config: Config): real {
    if delay * 2.0 < config.maxDelay then delay * 2.0 else config.maxDelay
  }

  datatype Progress = Progress(world: World, ok: bool)

  function Retry(w: World, id: int, config: Config, attempt: nat, delay: real): Progress
    decreases config.maxAttempts - attempt
  {
    if attempt > config.maxAttempts then Progress(w, true)
    else
      var outcome := config.outcome(w.tick);
      var next := Attempt(w, id, outcome);
      if outcome.Delivered? then Progress(next, true)
      else if attempt == config.maxAttempts then Progress(next, false)
      else Retry(Sleep(next, delay), id, config, attempt + 1, NextDelay(delay, config))
  }

  function RetryDelivery(w: World, id: int, config: Config): Progress {
    Retry(w, id, config, 1, config.initialDelay)
  }

  /** The alarms of one event, up to the first that exhausts its retries. */
  function DeliverAll(w: World, alarms: seq<Alarm>, config: Config): Progress
    decreases |alarms|
  {
    if alarms == [] then Progress(w, true)
    else
      var tried := RetryDelivery(w, alarms[0].id, config);
      if !tried.ok then Progress(tried.world.(failed := tried.world.failed + 1), false)
      else
        var next := tried.world.(processed := tried.world.processed + 1, checkpoint := alarms[0].id);
        DeliverAll(next, alarms[1..], config)
  }

  function Follow(w: World, events: seq<seq<Row>>, config: Config): Progress
    decreases |events|
  {
    if events == [] then Progress(w, true)
    else
      var done := DeliverAll(w, Kept(events[0], config.filter, w.checkpoint), config);
      if !done.ok then done else Follow(done.world, events[1..], config)
  }

  /** `COALESCE(MAX(main_record_id), 0)`. */
  function Latest(table: seq<int>): (n: int)
    ensures table == [] ==> n == 0
    ensures table != [] ==> n in table
  {
    if table == [] then 0
    else if |table| == 1 || table[0] > Latest(table[1..]) then table[0]
    else Latest(table[1..])
  }

  lemma {:induction false} LatestIsGreatest(table: seq<int>, id: int)
    requires id in table
    ensures id <= Latest(table)
  {
    if id in table[1..] {
      LatestIsGreatest(table[1..], id);
    }
  }

  function Anchor(w: World, latest: int): World {
    w.(checkpoint := latest, stored := latest, log := w.log + [Anchored(latest)])
  }

  function Connect(w: World, connection: Connection, config: Config): World {
    match connection
    case Refused => w.(processed := 0, failed := 0)
    case AnchorFailed => Sleep(w, config.initialDelay)
    case Streamed(table, events, broken) =>
      var done := Follow(Anchor(w, Latest(table)), events, config);
      if !done.ok || broken then Sleep(done.world, config.initialDelay) else done.world
    case Killed(table, events, at) =>
      var all := Follow(Anchor(w, Latest(table)), events, config).world;
      Restarted(FirstOf(all.log, |w.log| + at), all.tick)
  }

  function FirstOf<T>(s: seq<T>, n: nat): seq<T> { if n <= |s| then s[..n] else s }

  /** A process that starts after these effects; its checkpoint is set on connecting. */
  function Restarted(log: seq<Effect>, tick: nat): World {
    World(LastSaved(log), LastSaved(log), 0, 0, log, tick)
  }

  const START := World(0, 0, 0, 0, [], 0)

  function Run(w: World, connections: seq<Connection>, config: Config): World {
    if connections == [] then w
    else Connect(Run(w, connections[..|connections| - 1], config), connections[|connections| - 1], config)
  }

  // ---- the worker -----------------------------------------------------------------------------

  class Worker {
    var checkpoint: int
    var stored: int
    var processed: nat
    var failed: nat
    var log: seq<Effect>
    var tick: nat

    ghost function State(): World
      reads this
    {
      World(checkpoint, stored, processed, failed, log, tick)
    }

    constructor ()
      ensures State() == World(0, 0, 0, 0, [], 0)
    {
      checkpoint, stored, processed, failed, log, tick := 0, 0, 0, 0, [], 0;
    }

    /** `deliver_alarm`: diagnose, send, then save. */
    method DeliverAlarm(id: int, outcome: Outcome) returns (ok: bool)
      modifies this
      ensures State() == Attempt(old(State()), id, outcome) && ok == outcome.Delivered?
    {
      tick := tick + 1;
      if outcome.DiagnosisFailed? {
        return false;
      }
      log := log + [Diagnosed(id)];
      if outcome.SendFailed? {
        return false;
      }
      assert log + [Sent(id)] == old(log) + [Diagnosed(id), Sent(id)];
      log := log + [Sent(id)];
      if outcome.SaveFailed? {
        return false;
      }
      assert log + [Saved(id)] == old(log) + [Diagnosed(id), Sent(id), Saved(id)];
      stored := id;
      log := log + [Saved(id)];
      ok := true;
    }

    /** `retry_deliver_alarm`. */
    method RetryDeliverAlarm(id: int, config: Config) returns (ok: bool)
      modifies this
      ensures Progress(State(), ok) == RetryDelivery(old(State()), id, config)
    {
      var delay := config.initialDelay;
      var attempt := 1;
      while attempt <= config.maxAttempts
        invariant attempt >= 1
        invariant Retry(State(), id, config, attempt, delay) == RetryDelivery(old(State()), id, config)
        decreases config.maxAttempts - attempt
      {
        var delivered := DeliverAlarm(id, config.outcome(tick));
        if delivered {
          return true;
        }
        if attempt == config.maxAttempts {
          return false;
        }
        log := log + [Slept(delay)];
        delay := NextDelay(delay, config);
        attempt := attempt + 1;
      }
      ok := true;
    }

    method DeliverAlarms(alarms: seq<Alarm>, config: Config) returns (ok: bool)
      modifies this
      ensures Progress(State(), ok) == DeliverAll(old(State()), alarms, config)
    {
      for i := 0 to |alarms|
        invariant DeliverAll(State(), alarms[i..], config) == DeliverAll(old(State()), alarms, config)
      {
        assert alarms[i..][0] == alarms[i] && alarms[i..][1..] == alarms[i + 1..];
        var delivered := RetryDeliverAlarm(alarms[i].id, config);
        if !delivered {
          failed := failed + 1;
          return false;
        }
        processed := processed + 1;
        checkpoint := alarms[i].id;
      }
      ok := true;
    }

    method FollowEvents(events: seq<seq<Row>>, config: Config) returns (ok: bool)
      modifies this
      ensures Progress(State(), ok) == Follow(old(State()), events, config)
    {
      for i := 0 to |events|
        invariant Follow(State(), events[i..], config) == Follow(old(State()), events, config)
      {
        assert events[i..][0] == events[i] && events[i..][1..] == events[i + 1..];
        var alarms := ExtractInsertedAlarmRecords(events[i], config.filter, checkpoint);
        var delivered := DeliverAlarms(alarms, config);
        if !delivered {
          return false;
        }
      }
      ok := true;
    }

    /** `anchor_to_latest_id`, and the assignment of its result to the loop's checkpoint. */
    method AnchorToLatestId(table: seq<int>)
      modifies this
      ensures State() == Anchor(old(State()), Latest(table))
    {
      stored := Latest(table);
      log := log + [Anchored(stored)];
      checkpoint := stored;
    }

    method UseConnection(connection: Connection, config: Config)
      requires !EndsService(connection)
      modifies this
      ensures State() == Connect(old(State()), connection, config)
    {
      var ok := false;
      if connection.Streamed? {
        AnchorToLatestId(connection.table);
        ok := FollowEvents(connection.events, config);
        ok := ok && !connection.broken;
      }
      if !ok {
        log := log + [Slept(config.initialDelay)];
      }
    }

    /** `run_alarm_binlog_service`: it goes on from connection to connection until one is refused, or
        the process is killed. */
    method RunAlarmBinlogService(connections: seq<Connection>, config: Config) returns (used: nat)
      modifies this
      ensures used <= |connections| && (used < |connections| ==> EndsService(connections[used]))
      ensures forall i | 0 <= i < used :: !EndsService(connections[i])
      ensures State() == Run(old(State()).(processed := 0, failed := 0), connections[..used], config)
    {
      processed, failed, used := 0, 0, 0;
      ghost var start := State();
      while used < |connections| && !EndsService(connections[used])
        invariant used <= |connections|
        invariant forall i | 0 <= i < used :: !EndsService(connections[i])
        invariant State() == Run(start, connections[..used], config)
      {
        assert connections[..used + 1][..used] == connections[..used];
        UseConnection(connections[used], config);
        used := used + 1;
      }
    }
  }

  // ---- retries --------------------------------------------------------------------------------

  /** A retried delivery ends with the first attempt that delivers, or fails when none of the allowed
      attempts does. The checkpoint file is touched by a delivery only. */
  lemma {:induction false} RetryIsFirstSuccess(w: World, id: int, config: Config, attempt: nat, delay: real)
    requires attempt <= config.maxAttempts
    ensures var done := Retry(w, id, config, attempt, delay);
            && w.tick < done.world.tick <= w.tick + config.maxAttempts - attempt + 1
            && (forall t | w.tick <= t < done.world.tick - 1 :: !config.outcome(t).Delivered?)
            && done.ok == config.outcome(done.world.tick - 1).Delivered?
            && (!done.ok ==> done.world.tick == w.tick + config.maxAttempts - attempt + 1)
            && done.world.stored == (if done.ok then id else w.stored)
            && done.world.checkpoint == w.checkpoint
    decreases config.maxAttempts - attempt
  {
    var outcome := config.outcome(w.tick);
    if !outcome.Delivered? && attempt < config.maxAttempts {
      RetryIsFirstSuccess(Sleep(Attempt(w, id, outcome), delay), id, config, attempt + 1, NextDelay(delay, config));
    }
  }

  /** After a new alarm is counted as processed the file holds its id exactly if attempts are allowed;
      otherwise nothing is tried at all. */
  lemma ProcessedIsStoredIff(w: World, id: int, config: Config)
    requires id > w.stored && RetryDelivery(w, id, config).ok
    ensures RetryDelivery(w, id, config).world.stored == id <==> config.maxAttempts >= 1
    ensures config.maxAttempts < 1 ==> RetryDelivery(w, id, config) == Progress(w, true)
  {
    if config.maxAttempts >= 1 {
      RetryIsFirstSuccess(w, id, config, 1, config.initialDelay);
    }
  }

  function Pauses(log: seq<Effect>): seq<real> {
    if log == [] then []
    else
      var last := log[|log| - 1];
      Pauses(log[..|log| - 1]) + (if last.Slept? then [last.seconds] else [])
  }

  lemma PausesSnoc(log: seq<Effect>, last: Effect)
    ensures Pauses(log + [last]) == Pauses(log) + if last.Slept? then [last.seconds] else []
  {
    assert (log + [last])[..|log|] == log;
  }

  function Power2(k: nat): real { if k == 0 then 1.0 else 2.0 * Power2(k - 1) }

  /** The pause after the attempt that is `k` attempts later than one with pause `delay`. */
  function Backoff(delay: real, k: nat, config: Config): real {
    if k == 0 || delay * Power2(k) < config.maxDelay then delay * Power2(k) else config.maxDelay
  }

  lemma BackoffStep(delay: real, k: nat, config: Config)
    requires config.maxDelay >= 0.0
    ensures Backoff(NextDelay(delay, config), k, config) == Backoff(delay, k + 1, config)
  {
    Power2Positive(k);
    var p := Power2(k);
    assert delay * Power2(k + 1) == delay * 2.0 * p;
    if delay * 2.0 < config.maxDelay {
      assert NextDelay(delay, config) * p == delay * 2.0 * p;
    } else {
      MulMono(config.maxDelay, delay * 2.0, p);
      MulMono(1.0, p, config.maxDelay);
    }
  }

  lemma {:induction false} Power2Positive(k: nat)
    ensures Power2(k) >= 1.0
  {
    if k == 0 {
    } else {
      Power2Positive(k - 1);
    }
  }

  lemma MulMono(a: real, b: real, c: real)
    requires a <= b && c >= 0.0
    ensures a * c <= b * c && c * a <= c * b
  {
    assert (b - a) * c >= 0.0;
  }

  /** The pauses of the loop, each made from the one before. */
  function Waits(delay: real, n: nat, config: Config): (waits: seq<real>)
    ensures |waits| == n
    decreases n
  {
    if n == 0 then [] else [delay] + Waits(NextDelay(delay, config), n - 1, config)
  }

  /** The closed form of the pauses: the initial delay as it is, then doubling, bounded by the maximum. */
  lemma {:induction false} WaitsAreBackoffs(delay: real, n: nat, k: nat, config: Config)
    requires config.maxDelay >= 0.0 && k < n
    ensures Waits(delay, n, config)[k] == Backoff(delay, k, config)
    decreases n
  {
    if k == 0 {
    } else {
      WaitsAreBackoffs(NextDelay(delay, config), n - 1, k - 1, config);
      BackoffStep(delay, k - 1, config);
    }
  }

  /** No pause exceeds the maximum exactly when there is none, or the initial delay does not: the
      maximum is applied from the second pause on. */
  lemma PausesAreBoundedIff(delay: real, n: nat, config: Config)
    requires config.maxDelay >= 0.0
    ensures (forall k | 0 <= k < n :: Waits(delay, n, config)[k] <= config.maxDelay)
       <==> n == 0 || delay <= config.maxDelay
  {
    forall k: nat | k < n ensures Waits(delay, n, config)[k] == Backoff(delay, k, config) {
      WaitsAreBackoffs(delay, n, k, config);
    }
    assert n > 0 ==> Waits(delay, n, config)[0] == delay;
  }

  /** A delivery pauses between its attempts and only there. */
  lemma {:induction false} RetryPauses(w: World, id: int, config: Config, attempt: nat, delay: real)
    requires attempt <= config.maxAttempts
    ensures w.tick < Retry(w, id, config, attempt, delay).world.tick
    ensures Pauses(Retry(w, id, config, attempt, delay).world.log)
         == Pauses(w.log) + Waits(delay, Retry(w, id, config, attempt, delay).world.tick - w.tick - 1, config)
    decreases config.maxAttempts - attempt
  {
    var outcome := config.outcome(w.tick);
    var next := Attempt(w, id, outcome);
    AttemptPauses(w, id, outcome);
    if !outcome.Delivered? && attempt < config.maxAttempts {
      var later := NextDelay(delay, config);
      RetryPauses(Sleep(next, delay), id, config, attempt + 1, later);
      PausesSnoc(next.log, Slept(delay));
      var n := Retry(w, id, config, attempt, delay).world.tick - w.tick - 1;
      WaitsStep(delay, n, config);
      Regroup(Pauses(w.log), [delay], Waits(later, n - 1, config));
    } else {
      NothingAppended(Pauses(w.log));
    }
  }

  lemma WaitsStep(delay: real, n: nat, config: Config)
    requires n > 0
    ensures Waits(delay, n, config) == [delay] + Waits(NextDelay(delay, config), n - 1, config)
  {
  }

  lemma AttemptPauses(w: World, id: int, outcome: Outcome)
    ensures Pauses(Attempt(w, id, outcome).log) == Pauses(w.log)
  {
    var log1 := w.log + [Diagnosed(id)];
    var log2 := log1 + [Sent(id)];
    PausesSnoc(w.log, Diagnosed(id));
    PausesSnoc(log1, Sent(id));
    PausesSnoc(log2, Saved(id));
    OneByOne(w.log, Diagnosed(id), Sent(id), Saved(id));
  }
}
