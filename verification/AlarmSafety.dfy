/** What every run of the alarm worker keeps, across reconnections, restarts and kills: the order and the
    justification of checkpoints, and which alarms are lost for good. */
module AlarmSafety {
  import opened Seqs
  import opened Options
  import opened AlarmWorker
  import opened AlarmDelivery

  // ---- what holds of the log ------------------------------------------------------------------

  /** The stored checkpoint never decreases, and a delivery always raises it: no alarm is checkpointed
      twice, nor one that an earlier anchor has passed. */
  ghost predicate Ordered(log: seq<Effect>) {
    forall i, j | 0 <= i < j < |log| && IsSave(log[i]) && IsSave(log[j]) ::
      if log[j].Saved? then SavedValue(log[i]) < SavedValue(log[j]) else SavedValue(log[i]) <= SavedValue(log[j])
  }

  /** Every checkpoint of a delivery directly follows the diagnosis and the sending of that alarm. */
  ghost predicate Justified(log: seq<Effect>) {
    forall j | 0 <= j < |log| && log[j].Saved? ::
      j >= 2 && log[j - 1] == Sent(log[j].id) && log[j - 2] == Diagnosed(log[j].id)
  }

  ghost predicate SavesBelow(log: seq<Effect>, bound: int) {
    forall i | 0 <= i < |log| && IsSave(log[i]) :: SavedValue(log[i]) <= bound
  }

  /** Nothing was saved but 0 and ids that the table is known to have held or streamed. */
  ghost predicate AllKnown(log: seq<Effect>, known: set<int>) {
    forall i | 0 <= i < |log| && IsSave(log[i]) :: SavedValue(log[i]) == 0 || SavedValue(log[i]) in known
  }

  ghost predicate LogSound(log: seq<Effect>, stored: int, known: set<int>) {
    Ordered(log) && Justified(log) && SavesBelow(log, stored) && stored == LastSaved(log) && AllKnown(log, known)
  }

  ghost predicate Sound(w: World, config: Config, known: set<int>) {
    && LogSound(w.log, w.stored, known)
    && w.stored <= w.checkpoint
    && (config.maxAttempts >= 1 ==> w.stored == w.checkpoint)
  }

  lemma LastSavedSnoc(log: seq<Effect>, effect: Effect)
    ensures LastSaved(log + [effect]) == if IsSave(effect) then SavedValue(effect) else LastSaved(log)
  {
    PrefixOfSnoc(log, effect);
  }

  lemma AppendPlain(log: seq<Effect>, effect: Effect, stored: int, known: set<int>)
    requires LogSound(log, stored, known) && !IsSave(effect)
    ensures LogSound(log + [effect], stored, known)
  {
    LastSavedSnoc(log, effect);
  }

  lemma AppendAnchor(log: seq<Effect>, stored: int, latest: int, known: set<int>)
    requires LogSound(log, stored, known) && stored <= latest && (latest == 0 || latest in known)
    ensures LogSound(log + [Anchored(latest)], latest, known)
  {
    LastSavedSnoc(log, Anchored(latest));
  }

  lemma AppendDelivery(log: seq<Effect>, stored: int, id: int, known: set<int>)
    requires LogSound(log, stored, known) && stored < id && id in known
    ensures LogSound(log + [Diagnosed(id)] + [Sent(id)] + [Saved(id)], id, known)
  {
    AppendPlain(log, Diagnosed(id), stored, known);
    AppendPlain(log + [Diagnosed(id)], Sent(id), stored, known);
    AppendSaved(log + [Diagnosed(id)] + [Sent(id)], stored, id, known);
  }

  lemma AppendSaved(sent: seq<Effect>, stored: int, id: int, known: set<int>)
    requires LogSound(sent, stored, known) && stored < id && id in known
    requires |sent| >= 2 && sent[|sent| - 1] == Sent(id) && sent[|sent| - 2] == Diagnosed(id)
    ensures LogSound(sent + [Saved(id)], id, known)
  {
    LastSavedSnoc(sent, Saved(id));
  }

  lemma KnowMore(log: seq<Effect>, stored: int, known: set<int>, more: set<int>)
    requires LogSound(log, stored, known) && known <= more
    ensures LogSound(log, stored, more)
  {
  }

  lemma AttemptKeepsLog(w: World, id: int, outcome: Outcome, known: set<int>)
    requires LogSound(w.log, w.stored, known)
    requires outcome.Delivered? ==> w.stored < id && id in known
    ensures LogSound(Attempt(w, id, outcome).log, Attempt(w, id, outcome).stored, known)
  {
    OneByOne(w.log, Diagnosed(id), Sent(id), Saved(id));
    AppendPlain(w.log, Diagnosed(id), w.stored, known);
    AppendPlain(w.log + [Diagnosed(id)], Sent(id), w.stored, known);
    if outcome.Delivered? {
      AppendDelivery(w.log, w.stored, id, known);
    }
  }

  /** A retried delivery keeps the log sound if its alarm is new, or if it fails anyway. */
  lemma {:induction false} RetryKeepsLog(w: World, id: int, config: Config, attempt: nat, delay: real, known: set<int>)
    requires LogSound(w.log, w.stored, known)
    requires Retry(w, id, config, attempt, delay).ok && attempt <= config.maxAttempts ==> w.stored < id && id in known
    ensures var next := Retry(w, id, config, attempt, delay).world; LogSound(next.log, next.stored, known)
    decreases config.maxAttempts - attempt
  {
    if attempt > config.maxAttempts {
    } else {
      var outcome := config.outcome(w.tick);
      var next := Attempt(w, id, outcome);
      AttemptKeepsLog(w, id, outcome, known);
      if !outcome.Delivered? && attempt < config.maxAttempts {
        AppendPlain(next.log, Slept(delay), next.stored, known);
        RetryKeepsLog(Sleep(next, delay), id, config, attempt + 1, NextDelay(delay, config), known);
      }
    }
  }

  lemma DeliveryKeepsSound(w: World, id: int, config: Config, known: set<int>)
    requires Sound(w, config, known) && w.checkpoint < id && id in known
    ensures var done := RetryDelivery(w, id, config);
            Sound(if done.ok then done.world.(checkpoint := id) else done.world, config, known)
  {
    RetryKeepsLog(w, id, config, 1, config.initialDelay, known);
    if config.maxAttempts >= 1 {
      RetryIsFirstSuccess(w, id, config, 1, config.initialDelay);
    }
  }

  // ---- runs across restarts -------------------------------------------------------------------

  lemma {:induction false} DeliverAllKeepsSound(w: World, alarms: seq<Alarm>, config: Config, known: set<int>)
    requires Sound(w, config, known) && Ascending(alarms) && AllAbove(alarms, w.checkpoint)
    requires AlarmIds(alarms) <= known
    ensures Sound(DeliverAll(w, alarms, config).world, config, known)
    decreases |alarms|
  {
    if alarms == [] {
    } else {
      var id, rest := alarms[0].id, alarms[1..];
      assert id in AlarmIds(alarms);
      DeliveryKeepsSound(w, id, config, known);
      var tried := RetryDelivery(w, id, config);
      if tried.ok {
        var next := tried.world.(processed := tried.world.processed + 1, checkpoint := id);
        RestOfAscending(alarms);
        DeliverAllKeepsSound(next, rest, config, known);
      }
    }
  }

  lemma RestOfAscending(alarms: seq<Alarm>)
    requires alarms != [] && Ascending(alarms)
    ensures Ascending(alarms[1..]) && AllAbove(alarms[1..], alarms[0].id) && AlarmIds(alarms[1..]) <= AlarmIds(alarms)
  {
    var rest := alarms[1..];
    assert forall i | 0 <= i < |rest| :: rest[i] == alarms[i + 1];
  }

  ghost predicate EventsAscend(events: seq<seq<Row>>) { forall i | 0 <= i < |events| :: RowsAscend(events[i]) }

  ghost function EventIds(events: seq<seq<Row>>): set<int> {
    if events == [] then {} else RowIds(events[0]) + EventIds(events[1..])
  }

  lemma {:induction false} FollowKeepsSound(w: World, events: seq<seq<Row>>, config: Config, known: set<int>)
    requires Sound(w, config, known) && EventsAscend(events) && EventIds(events) <= known
    ensures Sound(Follow(w, events, config).world, config, known)
    decreases |events|
  {
    if events == [] {
    } else {
      var alarms := Kept(events[0], config.filter, w.checkpoint);
      KeptIsOrdered(events[0], config.filter, w.checkpoint);
      DeliverAllKeepsSound(w, alarms, config, known);
      var done := DeliverAll(w, alarms, config);
      if done.ok {
        FollowKeepsSound(done.world, events[1..], config, known);
      }
    }
  }

  predicate Follows(connection: Connection) { connection.Streamed? || connection.Killed? }

  /** The ids that have been in the table, or come from it, when a connection is over. */
  ghost function KnownAfter(known: set<int>, connection: Connection): set<int> {
    if Follows(connection) then known + (set id | id in connection.table) + EventIds(connection.events) else known
  }

  ghost function Known(connections: seq<Connection>): set<int> {
    if connections == [] then {}
    else KnownAfter(Known(connections[..|connections| - 1]), connections[|connections| - 1])
  }

  ghost predicate KeepsRows(known: set<int>, connection: Connection) {
    Follows(connection) ==>
      && (forall id | id in known :: id in connection.table)
      && (forall id | id in connection.table :: id > 0)
      && EventsAscend(connection.events)
  }

  /** The table only grows: what it once held or streamed is in it at each later connection. Its ids
      are positive and those of one event ascend. */
  ghost predicate AppendOnly(connections: seq<Connection>) {
    forall i | 0 <= i < |connections| :: KeepsRows(Known(connections[..i]), connections[i])
  }

  lemma {:induction false} LastSavedIsKnown(log: seq<Effect>, known: set<int>)
    requires AllKnown(log, known)
    ensures LastSaved(log) == 0 || LastSaved(log) in known
  {
    if log == [] {
    } else {
      LastSavedIsKnown(log[..|log| - 1], known);
    }
  }

  lemma {:induction false} OrderedIsBelowLast(log: seq<Effect>)
    requires Ordered(log)
    ensures SavesBelow(log, LastSaved(log))
  {
    if log == [] {
    } else {
      OrderedIsBelowLast(log[..|log| - 1]);
    }
  }

  /** A process may be killed after any of its effects. */
  lemma CutIsSound(log: seq<Effect>, stored: int, known: set<int>, n: nat)
    requires LogSound(log, stored, known)
    ensures LogSound(FirstOf(log, n), LastSaved(FirstOf(log, n)), known)
  {
    if n <= |log| {
      OrderedIsBelowLast(log[..n]);
    }
  }

  lemma StreamKeepsSound(w: World, connection: Connection, config: Config, known: set<int>)
    requires Sound(w, config, known) && KeepsRows(known, connection) && Follows(connection)
    ensures var anchored := Anchor(w, Latest(connection.table));
            Sound(Follow(anchored, connection.events, config).world, config, KnownAfter(known, connection))
  {
    var latest, more := Latest(connection.table), KnownAfter(known, connection);
    LastSavedIsKnown(w.log, known);
    if w.stored in known {
      LatestIsGreatest(connection.table, w.stored);
    }
    KnowMore(w.log, w.stored, known, more);
    AppendAnchor(w.log, w.stored, latest, more);
    FollowKeepsSound(Anchor(w, latest), connection.events, config, more);
  }

  lemma ConnectKeepsSound(w: World, connection: Connection, config: Config, known: set<int>)
    requires Sound(w, config, known) && KeepsRows(known, connection)
    ensures Sound(Connect(w, connection, config), config, KnownAfter(known, connection))
  {
    var more := KnownAfter(known, connection);
    match connection
    case Refused =>
    case AnchorFailed =>
      AppendPlain(w.log, Slept(config.initialDelay), w.stored, known);
    case Streamed(table, events, broken) =>
      StreamKeepsSound(w, connection, config, known);
      var done := Follow(Anchor(w, Latest(table)), events, config);
      AppendPlain(done.world.log, Slept(config.initialDelay), done.world.stored, more);
    case Killed(table, events, at) =>
      StreamKeepsSound(w, connection, config, known);
      var all := Follow(Anchor(w, Latest(table)), events, config).world;
      CutIsSound(all.log, all.stored, more, |w.log| + at);
  }

  lemma AppendOnlyPrefix(before: seq<Connection>, last: Connection)
    requires AppendOnly(before + [last])
    ensures AppendOnly(before) && KeepsRows(Known(before), last)
    ensures Known(before + [last]) == KnownAfter(Known(before), last)
  {
    var all := before + [last];
    PrefixOfSnoc(before, last);
    forall i | 0 <= i < |before| ensures KeepsRows(Known(before[..i]), before[i]) {
      PrefixOfFirst(before, [last], i);
      assert all[i] == before[i];
    }
    assert KeepsRows(Known(all[..|before|]), all[|before|]);
  }

  /** Whole runs, across any number of reconnections, restarts and kills: the stored checkpoint never
      decreases, it is the checkpoint of the loop between deliveries, and each delivery that is
      checkpointed was diagnosed and sent, and is newer than everything saved before. */
  lemma {:induction false} RunKeepsSound(connections: seq<Connection>, config: Config)
    requires AppendOnly(connections)
    ensures Sound(Run(START, connections, config), config, Known(connections))
  {
    if connections == [] {
    } else {
      var before, last := connections[..|connections| - 1], connections[|connections| - 1];
      InitAndLast(connections);
      AppendOnlyPrefix(before, last);
      RunKeepsSound(before, config);
      ConnectKeepsSound(Run(START, before, config), last, config, Known(before));
    }
  }

  // ---- lost alarms ----------------------------------------------------------------------------

  ghost predicate Extends(longer: seq<Effect>, log: seq<Effect>) {
    |log| <= |longer| && longer[..|log|] == log
  }

  lemma {:induction false} RunExtends(connections: seq<Connection>, config: Config, k: nat)
    requires k <= |connections|
    ensures Extends(Run(START, connections, config).log, Run(START, connections[..k], config).log)
    decreases |connections|
  {
    if k == |connections| {
      assert connections[..k] == connections;
    } else {
      var before := connections[..|connections| - 1];
      RunExtends(before, config, k);
      PrefixOfPrefix(connections, k, |before|);
      ConnectLogs(Run(START, before, config), connections[|connections| - 1], config);
    }
  }

  /** The connection lives to save its anchor. */
  predicate Anchors(connection: Connection) {
    connection.Streamed? || (connection.Killed? && connection.at > 0)
  }

  lemma AnchorIsFirst(config: Config, t: nat, connection: Connection)
    requires Anchors(connection)
    ensures Effects(config, t, connection) != []
    ensures Effects(config, t, connection)[0] == Anchored(Latest(connection.table))
  {
  }

  lemma AnchorIsLogged(connections: seq<Connection>, config: Config, k: nat)
    requires k < |connections| && Anchors(connections[k])
    ensures var n, log := |Run(START, connections[..k], config).log|, Run(START, connections, config).log;
            n < |log| && log[n] == Anchored(Latest(connections[k].table))
  {
    var w, next := Run(START, connections[..k], config), Run(START, connections[..k + 1], config);
    PrefixOfPrefix(connections, k, k + 1);
    assert connections[..k + 1][|connections[..k + 1]| - 1] == connections[k];
    ConnectLogs(w, connections[k], config);
    AnchorIsFirst(config, w.tick, connections[k]);
    assert next.log[|w.log|] == Anchored(Latest(connections[k].table));
    RunExtends(connections, config, k + 1);
    SameAt(Run(START, connections, config).log, next.log, |w.log|);
  }

  lemma SameAt(longer: seq<Effect>, log: seq<Effect>, i: nat)
    requires Extends(longer, log) && i < |log|
    ensures longer[i] == log[i]
  {
    assert longer[i] == longer[..|log|][i];
  }

  /** An alarm that was in the table, or was streamed, before a connection was anchored is never
      checkpointed by a delivery afterwards: one that exhausted its retries, or was inserted while
      the worker was away, is passed over for good. */
  lemma PassedAlarmIsLost(connections: seq<Connection>, config: Config, k: nat, id: int, j: nat)
    requires AppendOnly(connections)
    requires k < |connections| && Anchors(connections[k])
    requires id in Known(connections[..k]) || id in connections[k].table
    requires |Run(START, connections[..k], config).log| <= j < |Run(START, connections, config).log|
    ensures Run(START, connections, config).log[j] != Saved(id)
  {
    assert KeepsRows(Known(connections[..k]), connections[k]);
    LatestIsGreatest(connections[k].table, id);
    AnchorIsLogged(connections, config, k);
    RunKeepsSound(connections, config);
  }

  // ---- the order of one event -----------------------------------------------------------------

  ghost predicate Rising(ids: seq<int>) { forall i, j | 0 <= i < j < |ids| :: ids[i] < ids[j] }

  lemma {:induction false} SavesAreLogged(log: seq<Effect>, i: nat)
    requires i < |Saves(log)|
    ensures exists j | 0 <= j < |log| :: log[j] == Saved(Saves(log)[i])
  {
    var before := log[..|log| - 1];
    if i < |Saves(before)| {
      SavesAreLogged(before, i);
      var j :| 0 <= j < |before| && before[j] == Saved(Saves(before)[i]);
      assert log[j] == Saved(Saves(log)[i]);
    } else {
      assert log[|log| - 1] == Saved(Saves(log)[i]);
    }
  }

  lemma {:induction false} OrderedSavesRise(log: seq<Effect>)
    requires Ordered(log)
    ensures Rising(Saves(log))
  {
    if log == [] {
    } else {
      var before := log[..|log| - 1];
      OrderedSavesRise(before);
      forall i | 0 <= i < |Saves(before)| ensures log[|log| - 1].Saved? ==> Saves(before)[i] < log[|log| - 1].id {
        SavesAreLogged(before, i);
      }
    }
  }

  /** The part of an event that is checkpointed. */
  function Reached(config: Config, t: nat, alarms: seq<Alarm>): seq<Alarm> {
    if config.maxAttempts < 1 then [] else alarms[..Passed(config, t, |alarms|)]
  }

  lemma EventSaves(w: World, alarms: seq<Alarm>, config: Config)
    ensures Saves(DeliverAll(w, alarms, config).world.log) == Saves(w.log) + Ids(Reached(config, w.tick, alarms))
  {
    DeliverAllLogs(w, alarms, config);
    SavesAppend(w.log, Work(config, w.tick, Ids(alarms)));
    WorkSaves(config, w.tick, Ids(alarms));
    assert PassedOf(config, w.tick, Ids(alarms)) == Ids(Reached(config, w.tick, alarms));
  }

  lemma {:induction false} ReachedKeepsOrdered(w: World, alarms: seq<Alarm>, config: Config, known: set<int>)
    requires Sound(w, config, known) && config.maxAttempts >= 1 && AlarmIds(alarms) <= known
    requires Ascending(Reached(config, w.tick, alarms)) && AllAbove(Reached(config, w.tick, alarms), w.checkpoint)
    ensures Ordered(DeliverAll(w, alarms, config).world.log)
    decreases |alarms|
  {
    if alarms == [] {
    } else {
      var id, rest, reached := alarms[0].id, alarms[1..], Reached(config, w.tick, alarms);
      var tried := RetryDelivery(w, id, config);
      DeliveryTries(w, id, config);
      assert forall i | 0 <= i < |rest| :: rest[i] == alarms[i + 1];
      if tried.ok {
        var next := tried.world.(processed := tried.world.processed + 1, checkpoint := id);
        assert id in AlarmIds(alarms) && reached[0] == alarms[0];
        DeliveryKeepsSound(w, id, config, known);
        assert Reached(config, next.tick, rest) == reached[1..];
        RestOfAscending(reached);
        ReachedKeepsOrdered(next, rest, config, known);
      } else {
        RetryKeepsLog(w, id, config, 1, config.initialDelay, known);
      }
    }
  }

  /** The checkpoints of an event keep their order exactly if the alarms it delivers come with ascending
      ids: the checkpoint test is made before the first delivery only. */
  lemma EventIsOrderedIff(w: World, alarms: seq<Alarm>, config: Config, known: set<int>)
    requires Sound(w, config, known) && AllAbove(alarms, w.checkpoint) && AlarmIds(alarms) <= known
    ensures Ordered(DeliverAll(w, alarms, config).world.log) <==> Ascending(Reached(config, w.tick, alarms))
  {
    if config.maxAttempts < 1 {
      NoAttemptsNoEffects(config, w.tick, Ids(alarms));
      DeliverAllLogs(w, alarms, config);
      NothingAppended(w.log);
    } else if Ascending(Reached(config, w.tick, alarms)) {
      ReachedKeepsOrdered(w, alarms, config, known);
    }
    if Ordered(DeliverAll(w, alarms, config).world.log) {
      OrderedMeansAscending(w, alarms, config);
    }
  }

  lemma OrderedMeansAscending(w: World, alarms: seq<Alarm>, config: Config)
    requires Ordered(DeliverAll(w, alarms, config).world.log)
    ensures Ascending(Reached(config, w.tick, alarms))
  {
    EventSaves(w, alarms, config);
    OrderedSavesRise(DeliverAll(w, alarms, config).world.log);
    RisingTail(Saves(w.log), Reached(config, w.tick, alarms));
  }

  lemma RisingTail(before: seq<int>, alarms: seq<Alarm>)
    requires Rising(before + Ids(alarms))
    ensures Ascending(alarms)
  {
    var all := before + Ids(alarms);
    assert forall i | 0 <= i < |alarms| :: all[|before| + i] == alarms[i].id;
  }

  lemma {:induction false} NoAttemptsNoEffects(config: Config, t: nat, ids: seq<int>)
    requires config.maxAttempts < 1
    ensures Work(config, t, ids) == []
    decreases |ids|
  {
    if ids == [] {
    } else {
      NoAttemptsNoEffects(config, t, ids[1..]);
    }
  }

  // ---- lost alarms, concretely ----------------------------------------------------------------

  const ALARMS := Filter("core", ["cpu"])

  /** One attempt for each alarm; the first `failures` attempts fail. */
  function OneAttempt(failures: nat): Config {
    Config(ALARMS, 1, 1.0, 30.0, (t: nat) => if t < failures then SendFailed else Delivered)
  }

  function CpuAlarm(id: int): Row { Some(Alarm(id, "cpu high", "core", "cpu")) }

  /** Alarm 2 comes while the worker is away: the next connection anchors to it and goes on with 3. */
  const AWAY := [Streamed([1], [], true), Streamed([1, 2], [[CpuAlarm(3)]], false)]

  /** Alarm 2 is streamed, but its only attempt fails; the service connects again. */
  const EXHAUSTED := [Streamed([1], [[CpuAlarm(2)]], false), Streamed([1, 2], [[CpuAlarm(3)]], false)]

  /** A connection that is up when alarm 2 comes. */
  const PRESENT := [Streamed([1], [[CpuAlarm(2)]], false)]

  /** A connection that streams one alarm above its anchor delivers it exactly if its only attempt does. */
  lemma StreamsOne(config: Config, t: nat, table: seq<int>, id: int, broken: bool)
    requires Latest(table) < id && config.maxAttempts == 1 && config.filter == ALARMS
    ensures var c := Streamed(table, [[CpuAlarm(id)]], broken);
            && Deliveries(config, t, c) == (if config.outcome(t).Delivered? then [id] else [])
            && TickOf(config, t, c) == t + 1
  {
    var row, events := CpuAlarm(id), [[CpuAlarm(id)]];
    assert [row][..0] == [] && Kept([row], ALARMS, Latest(table)) == [row.value];
    assert events[1..] == [] && Taken(events[1..], ALARMS, id) == [];
    assert Taken(events, ALARMS, Latest(table)) == [row.value];
    ConnectionDelivers(config, t, table, events, broken);
    assert Fails(config, t, 1) == if config.outcome(t).Delivered? then 0 else 1 by {
      assert Fails(config, t + 1, 0) == 0;
    }
    assert Passed(config, t + 1, 0) == 0;
    assert Ids([row.value]) == [id] && [id][..1] == [id] && [id][..0] == [];
  }

  lemma StreamsNone(config: Config, t: nat, table: seq<int>, broken: bool)
    ensures Deliveries(config, t, Streamed(table, [], broken)) == []
    ensures TickOf(config, t, Streamed(table, [], broken)) == t
  {
    ConnectionDelivers(config, t, table, [], broken);
    assert Taken([], config.filter, Latest(table)) == [] && Ids([]) == [];
  }

  lemma DeliveriesOfTwo(a: Connection, b: Connection, config: Config)
    ensures AllDeliveries([a], config) == Deliveries(config, 0, a)
    ensures AllDeliveries([a, b], config) == Deliveries(config, 0, a) + Deliveries(config, TickOf(config, 0, a), b)
  {
    var none: seq<Connection>, two := [], [a, b];
    assert two[..1] == [a] && [a][..0] == none;
    assert RunTick(none, config) == 0 && AllDeliveries(none, config) == [];
    assert RunTick([a], config) == TickOf(config, 0, a);
  }

  lemma KnownOfTwo(a: Connection, b: Connection)
    requires KeepsRows({}, a) && KeepsRows(KnownAfter({}, a), b)
    ensures AppendOnly([a]) && AppendOnly([a, b])
  {
    assert [a, b][..1] == [a] && [a][..0] == [] && [a, b][..0] == [];
    assert Known([]) == {} && Known([a]) == KnownAfter({}, a);
  }

  lemma OneRowAscends(row: Row)
    ensures EventsAscend([[row]]) && EventIds([[row]]) == if row.Some? then {row.value.id} else {}
  {
    assert [[row]][1..] == [] && EventIds([]) == {};
    assert RowIds([row]) == if row.Some? then {row.value.id} else {} by {
      assert row.Some? ==> [row][0].value.id in RowIds([row]);
    }
  }

  /** The witness: the same alarm, in the same table, is delivered when a connection is up, and never
      when it comes between two connections or exhausts its retries. */
  lemma AlarmsAreLost()
    ensures AppendOnly(AWAY) && Saves(Run(START, AWAY, OneAttempt(0)).log) == [3]
    ensures AppendOnly(EXHAUSTED) && Saves(Run(START, EXHAUSTED, OneAttempt(1)).log) == [3]
    ensures AppendOnly(PRESENT) && Saves(Run(START, PRESENT, OneAttempt(0)).log) == [2]
  {
    AwayLoses();
    ExhaustedLoses();
    PresentDelivers();
  }

  lemma PresentDelivers()
    ensures AppendOnly(PRESENT) && Saves(Run(START, PRESENT, OneAttempt(0)).log) == [2]
  {
    var config := OneAttempt(0);
    OneRowAscends(CpuAlarm(2));
    KnownOfTwo(PRESENT[0], Refused);
    RunDelivers(PRESENT, config);
    DeliveriesOfTwo(PRESENT[0], Refused, config);
    StreamsOne(config, 0, [1], 2, false);
  }

  lemma AwayLoses()
    ensures AppendOnly(AWAY) && Saves(Run(START, AWAY, OneAttempt(0)).log) == [3]
  {
    var config := OneAttempt(0);
    OneRowAscends(CpuAlarm(3));
    KnownOfTwo(AWAY[0], AWAY[1]);
    RunDelivers(AWAY, config);
    DeliveriesOfTwo(AWAY[0], AWAY[1], config);
    StreamsNone(config, 0, [1], true);
    StreamsOne(config, 0, [1, 2], 3, false);
  }

  lemma ExhaustedLoses()
    ensures AppendOnly(EXHAUSTED) && Saves(Run(START, EXHAUSTED, OneAttempt(1)).log) == [3]
  {
    var config := OneAttempt(1);
    OneRowAscends(CpuAlarm(2));
    OneRowAscends(CpuAlarm(3));
    KnownOfTwo(EXHAUSTED[0], EXHAUSTED[1]);
    RunDelivers(EXHAUSTED, config);
    DeliveriesOfTwo(EXHAUSTED[0], EXHAUSTED[1], config);
    StreamsOne(config, 0, [1], 2, false);
    StreamsOne(config, 1, [1, 2], 3, false);
  }
}
