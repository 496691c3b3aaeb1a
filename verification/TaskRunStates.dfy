/** The rows and the transition log of task runs: single transitions, and what the log says about the rows. */
module TaskRunStates {
  import opened Options

  type Uuid = string

  datatype TaskState = CREATED | RUNNING | CANCELLED | FAILURE | TIMEOUT | SUCCESS | RETRYING | CACHED {
    predicate Terminal() { CANCELLED? || FAILURE? || SUCCESS? || CACHED? }
  }

  datatype Row = Row(state: TaskState, runCount: nat, parent: Option<Uuid>, heartbeat: real)

  datatype Transition = Transition(uuid: Uuid, from: TaskState, to: TaskState)

  type Rows = map<Uuid, Row>

  datatype Database = Database(rows: Rows, log: seq<Transition>)

  function TransitionRow(row: Row, newState: TaskState): Row {
    if row.state == newState then row
    else row.(state := newState, runCount := row.runCount + if newState == RUNNING then 1 else 0)
  }

  function TransitionState(db: Database, u: Uuid, newState: TaskState): Database
    requires u in db.rows
  {
    if db.rows[u].state == newState then db
    else Database(
      db.rows[u := TransitionRow(db.rows[u], newState)],
      db.log + [Transition(u, db.rows[u].state, newState)])
  }

  /** A transition touches one row and logs itself once, or does nothing when the state is there already. */
  lemma TransitionFields(db: Database, u: Uuid, newState: TaskState)
    requires u in db.rows
    ensures var after, row := TransitionState(db, u, newState), db.rows[u];
            if row.state == newState then after == db
            else
              && after.rows.Keys == db.rows.Keys
              && (forall v :: v in db.rows && v != u ==> after.rows[v] == db.rows[v])
              && after.rows[u] == Row(newState, after.rows[u].runCount, row.parent, row.heartbeat)
              && after.rows[u].runCount == row.runCount + (if newState == RUNNING then 1 else 0)
              && after.log == db.log + [Transition(u, row.state, newState)]
  {
  }

  // ---------------------------------------------------------------- the log of one run

  function LogOf(log: seq<Transition>, u: Uuid): (r: seq<Transition>)
    ensures forall t :: t in r <==> t in log && t.uuid == u
  {
    if log == [] then []
    else if log[0].uuid == u then [log[0]] + LogOf(log[1..], u)
    else LogOf(log[1..], u)
  }

  /** The entries link up from `start` to `end`, and none is a self-loop. */
  ghost predicate Chain(log: seq<Transition>, start: TaskState, end: TaskState) {
    && (forall i :: 0 <= i < |log| ==> log[i].from != log[i].to)
    && (forall i :: 0 < i < |log| ==> log[i - 1].to == log[i].from)
    && (if log == [] then start == end else log[0].from == start && log[|log| - 1].to == end)
  }

  function Entries(log: seq<Transition>, s: TaskState): nat {
    if log == [] then 0 else Entries(log[..|log| - 1], s) + if log[|log| - 1].to == s then 1 else 0
  }

  /** The log replays to the row: it explains the current state and counts the runs. */
  ghost predicate Replays(db: Database, u: Uuid)
    requires u in db.rows
  {
    && Chain(LogOf(db.log, u), CREATED, db.rows[u].state)
    && db.rows[u].runCount == Entries(LogOf(db.log, u), RUNNING)
  }

  ghost predicate LogReplays(db: Database) {
    forall u :: u in db.rows ==> Replays(db, u)
  }

  lemma {:induction false} LogOfAppended(log: seq<Transition>, t: Transition, u: Uuid)
    ensures LogOf(log + [t], u) == LogOf(log, u) + if t.uuid == u then [t] else []
  {
    if log == [] {
      assert [t][1..] == [];
    } else {
      assert (log + [t])[1..] == log[1..] + [t];
      LogOfAppended(log[1..], t, u);
    }
  }

  lemma AppendToChain(log: seq<Transition>, t: Transition, start: TaskState)
    requires Chain(log, start, t.from) && t.from != t.to
    ensures Chain(log + [t], start, t.to)
    ensures forall s :: Entries(log + [t], s) == Entries(log, s) + if t.to == s then 1 else 0
  {
    assert (log + [t])[..|log|] == log;
  }

  /** Any transition, to whatever state, keeps log and rows in step. */
  lemma TransitionKeepsReplay(db: Database, u: Uuid, newState: TaskState)
    requires LogReplays(db) && u in db.rows
    ensures LogReplays(TransitionState(db, u, newState))
  {
    var after := TransitionState(db, u, newState);
    if db.rows[u].state != newState {
      var t := Transition(u, db.rows[u].state, newState);
      forall v | v in after.rows
        ensures Replays(after, v)
      {
        assert Replays(db, v);
        LogOfAppended(db.log, t, v);
        if v == u {
          AppendToChain(LogOf(db.log, u), t, CREATED);
        } else {
          assert LogOf(db.log, v) + [] == LogOf(db.log, v);
        }
      }
    }
  }

  // ---------------------------------------------------------------- a list of emitted states

  /** What the state machine does with the states one run emits. */
  function Emit(db: Database, u: Uuid, emitted: seq<TaskState>): (after: Database)
    requires u in db.rows
    ensures u in after.rows
    decreases emitted
  {
    if emitted == [] then db else Emit(TransitionState(db, u, emitted[0]), u, emitted[1..])
  }

  function WithoutRepeats(previous: TaskState, emitted: seq<TaskState>): seq<TaskState>
    decreases emitted
  {
    if emitted == [] then []
    else if emitted[0] == previous then WithoutRepeats(previous, emitted[1..])
    else [emitted[0]] + WithoutRepeats(emitted[0], emitted[1..])
  }

  function Count(emitted: seq<TaskState>, s: TaskState): nat {
    if emitted == [] then 0 else (if emitted[0] == s then 1 else 0) + Count(emitted[1..], s)
  }

  function ToStates(log: seq<Transition>): (r: seq<TaskState>)
    ensures |r| == |log|
    ensures forall i :: 0 <= i < |log| ==> r[i] == log[i].to
  {
    if log == [] then [] else [log[0].to] + ToStates(log[1..])
  }

  lemma ToStatesAppended(log: seq<Transition>, t: Transition)
    ensures ToStates(log + [t]) == ToStates(log) + [t.to]
  {
    assert forall i :: 0 <= i < |log| ==> ToStates(log + [t])[i] == log[i].to;
  }

  lemma EmitOne(db: Database, u: Uuid, newState: TaskState)
    requires u in db.rows
    ensures var after := TransitionState(db, u, newState);
            && u in after.rows && after.rows[u].state == newState
            && (if db.rows[u].state == newState then after == db
                else
                  && ToStates(LogOf(after.log, u)) == ToStates(LogOf(db.log, u)) + [newState]
                  && after.rows[u].runCount == db.rows[u].runCount + if newState == RUNNING then 1 else 0)
  {
    var t := Transition(u, db.rows[u].state, newState);
    LogOfAppended(db.log, t, u);
    ToStatesAppended(LogOf(db.log, u), t);
  }

  /**
   Emitting a list of states extends the run's log by the list with adjacent repeats removed, the current
   state counting as the one before, and the row follows the log.
   */
  lemma {:induction false} LogOfEmitted(db: Database, u: Uuid, emitted: seq<TaskState>)
    requires u in db.rows
    ensures var after := Emit(db, u, emitted);
            var kept := WithoutRepeats(db.rows[u].state, emitted);
            && ToStates(LogOf(after.log, u)) == ToStates(LogOf(db.log, u)) + kept
            && after.rows[u].state == (if emitted == [] then db.rows[u].state else emitted[|emitted| - 1])
            && after.rows[u].runCount == db.rows[u].runCount + Count(kept, RUNNING)
    decreases emitted
  {
    if emitted != [] {
      EmitOne(db, u, emitted[0]);
      LogOfEmitted(TransitionState(db, u, emitted[0]), u, emitted[1..]);
    }
  }

  /** When no two neighbours are both RUNNING, every emitted RUNNING is counted. */
  lemma {:induction false} EveryRunCounts(previous: TaskState, emitted: seq<TaskState>)
    requires previous == RUNNING ==> emitted == [] || emitted[0] != RUNNING
    requires forall i :: 0 < i < |emitted| ==> !(emitted[i - 1] == RUNNING && emitted[i] == RUNNING)
    ensures Count(WithoutRepeats(previous, emitted), RUNNING) == Count(emitted, RUNNING)
    decreases emitted
  {
    if emitted != [] {
      assert |emitted| > 1 ==> !(emitted[0] == RUNNING && emitted[1] == RUNNING);
      EveryRunCounts(emitted[0], emitted[1..]);
    }
  }
}
