/**
 * The tasker of tasker.go: a registry of (trigger state, action) watchers and
 * a poll loop that runs, for every listed task whose "State" field holds a
 * non-empty string, every watcher whose trigger equals that state.
 *
 * The Airtable client is not modelled: what a call to it returned is an
 * input. Actions are opaque; invoking one is recorded as a Dispatch.
 */
module AirtableTasker {
  import opened Wrappers
  import Rows

  /** A time.Duration, in nanoseconds. */
  type Duration = int

  const Second: Duration := 1_000_000_000
  const DefaultAirtablePollInterval: Duration := 10 * Second
  const DefaultAirtableTable: string := "Tasks"
  const DefaultAsync: bool := false

  /** The error GetState returns for a task without a usable state. */
  const CouldNotParseState: Error := Error("Could not parse state from task")

  /** Task: an Airtable record of the tasks table. */
  datatype Task = Task(id: string, fields: Rows.Value)

  /** An ActionFunction, known to the model only by an identifier. */
  type Action = nat

  /** A registered trigger state and the action it runs. */
  datatype Watcher = Watcher(trigger: string, action: Action)

  /** One invocation of an action: the position of the task in the listing, the task, and the watcher's registration index. */
  datatype Dispatch = Dispatch(taskIndex: nat, task: Task, watcher: nat)

  /** What one iteration of Start observes: the task listing (or its failure) and whether the context is done at the check after the pass. */
  datatype Poll = Poll(listed: Result<seq<Task>>, ctxDone: bool)

  /** getState: the "State" field when the fields are a map and it holds a string, and "" otherwise. */
  function StateOf(task: Task): (state: string)
    ensures (task.fields.Object? && "State" in task.fields.entries && task.fields.entries["State"].Str?) ==>
      state == task.fields.entries["State"].s
    ensures !(task.fields.Object? && "State" in task.fields.entries && task.fields.entries["State"].Str?) ==>
      state == ""
  {
    match task.fields
    case Object(entries) =>
      if "State" in entries then
        match entries["State"]
        case Str(s) => s
        case _ => ""
      else ""
    case _ => ""
  }

  /**
   * getState is stricter than the row accessor's string coercion: the two
   * agree on a task exactly when its state is not a boolean and, if it is a
   * float, the float formats to "".
   */
  lemma StateVersusFieldString(task: Task, formatFloat: Rows.Float64 -> string)
    ensures StateOf(task) == Rows.GetFieldString(Rows.Row(task.id, task.fields), "State", formatFloat) <==>
      match Rows.GetField(Rows.Row(task.id, task.fields), "State")
      case Bool(_) => false
      case Number(f) => formatFloat(f) == ""
      case _ => true
  {
  }

  /**
   * GetState, given what RetrieveRecord returned for the id: the client's
   * error unchanged, the state when it is non-empty, and the
   * CouldNotParseState error otherwise.
   */
  function GetState(fetched: Result<Task>): (r: Outcome<string>)
    ensures r.err.None? <==> fetched.Ok? && StateOf(fetched.value) != ""
    ensures r.err.None? ==> r.value == StateOf(fetched.value)
    ensures r.err.Some? ==> r.value == ""
    ensures fetched.Err? ==> r.err == Some(fetched.error)
    ensures fetched.Ok? && StateOf(fetched.value) == "" ==> r.err == Some(CouldNotParseState)
  {
    match fetched
    case Err(e) => Outcome("", Some(e))
    case Ok(task) =>
      var state := StateOf(task);
      if state != "" then Outcome(state, None) else Outcome("", Some(CouldNotParseState))
  }

  /** A watcher fires on a task when the task's state is non-empty and equals the watcher's trigger. */
  predicate Triggers(w: Watcher, task: Task) {
    StateOf(task) != "" && w.trigger == StateOf(task)
  }

  /** The lexicographic order of dispatches within a pass: by task position, then by watcher index. */
  predicate Before(a: Dispatch, b: Dispatch) {
    a.taskIndex < b.taskIndex || (a.taskIndex == b.taskIndex && a.watcher < b.watcher)
  }

  /** Dispatches in strictly increasing lexicographic order, hence without repetition. */
  predicate Ordered(ds: seq<Dispatch>) {
    forall a, b :: 0 <= a < b < |ds| ==> Before(ds[a], ds[b])
  }

  predicate WatchersIncrease(ds: seq<Dispatch>) {
    forall a, b :: 0 <= a < b < |ds| ==> ds[a].watcher < ds[b].watcher
  }

  /** The inner loop of a pass, from watcher j on: the watchers whose trigger is `state`, in registration order. */
  function Fire(i: nat, task: Task, state: string, watchers: seq<Watcher>, j: nat): seq<Dispatch>
    requires j <= |watchers|
    decreases |watchers| - j
  {
    if j == |watchers| then []
    else
      var rest := Fire(i, task, state, watchers, j + 1);
      if watchers[j].trigger == state then [Dispatch(i, task, j)] + rest else rest
  }

  /** The dispatches of task i: none when its state is "", else those of the inner loop. */
  function TaskDispatches(i: nat, task: Task, watchers: seq<Watcher>): seq<Dispatch> {
    var state := StateOf(task);
    if state == "" then [] else Fire(i, task, state, watchers, 0)
  }

  /** The outer loop of a pass, from task i on. */
  function PassFrom(tasks: seq<Task>, watchers: seq<Watcher>, i: nat): seq<Dispatch>
    requires i <= |tasks|
    decreases |tasks| - i
  {
    if i == |tasks| then []
    else TaskDispatches(i, tasks[i], watchers) + PassFrom(tasks, watchers, i + 1)
  }

  /** One pass of Start over a successful listing: the actions invoked, in order. */
  function Pass(tasks: seq<Task>, watchers: seq<Watcher>): seq<Dispatch> {
    PassFrom(tasks, watchers, 0)
  }

  lemma {:induction false} FireSpec(i: nat, task: Task, state: string, watchers: seq<Watcher>, j: nat)
    requires j <= |watchers|
    ensures forall d :: d in Fire(i, task, state, watchers, j) <==>
      d.taskIndex == i && d.task == task && j <= d.watcher < |watchers| && watchers[d.watcher].trigger == state
    ensures WatchersIncrease(Fire(i, task, state, watchers, j))
    decreases |watchers| - j
  {
    if j < |watchers| {
      FireSpec(i, task, state, watchers, j + 1);
      var rest := Fire(i, task, state, watchers, j + 1);
      if watchers[j].trigger == state {
        var ds := [Dispatch(i, task, j)] + rest;
        forall a, b | 0 <= a < b < |ds| ensures ds[a].watcher < ds[b].watcher {
          assert ds[b] == rest[b - 1];
          if a > 0 {
            assert ds[a] == rest[a - 1];
          } else {
            assert rest[b - 1] in rest;
          }
        }
      }
    }
  }

  lemma {:induction false} PassFromSpec(tasks: seq<Task>, watchers: seq<Watcher>, i: nat)
    requires i <= |tasks|
    ensures forall d :: d in PassFrom(tasks, watchers, i) <==>
      i <= d.taskIndex < |tasks| && d.task == tasks[d.taskIndex] &&
      d.watcher < |watchers| && Triggers(watchers[d.watcher], tasks[d.taskIndex])
    ensures Ordered(PassFrom(tasks, watchers, i))
    decreases |tasks| - i
  {
    if i < |tasks| {
      var here := TaskDispatches(i, tasks[i], watchers);
      var rest := PassFrom(tasks, watchers, i + 1);
      PassFromSpec(tasks, watchers, i + 1);
      if StateOf(tasks[i]) != "" {
        FireSpec(i, tasks[i], StateOf(tasks[i]), watchers, 0);
      }
      assert forall d :: d in here ==> d.taskIndex == i;
      assert forall d :: d in rest ==> d.taskIndex > i;
      var ds := here + rest;
      forall a, b | 0 <= a < b < |ds| ensures Before(ds[a], ds[b]) {
        if b < |here| {
          assert ds[a] == here[a] && ds[b] == here[b];
          assert here[a] in here && here[b] in here;
          assert here[a].watcher < here[b].watcher;
        } else if a >= |here| {
          assert ds[a] == rest[a - |here|] && ds[b] == rest[b - |here|];
        } else {
          assert ds[a] == here[a] && ds[b] == rest[b - |here|];
          assert ds[a] in here && ds[b] in rest;
        }
      }
    }
  }

  /**
   * One pass invokes, for every task whose state is non-empty, every watcher
   * whose trigger equals that state, and nothing else (a "" trigger never
   * fires); the invocations come in the order of the tasks, then of
   * registration, so none is repeated.
   */
  lemma PassSpec(tasks: seq<Task>, watchers: seq<Watcher>)
    ensures forall d :: d in Pass(tasks, watchers) <==>
      d.taskIndex < |tasks| && d.task == tasks[d.taskIndex] &&
      d.watcher < |watchers| && Triggers(watchers[d.watcher], tasks[d.taskIndex])
    ensures Ordered(Pass(tasks, watchers))
  {
    PassFromSpec(tasks, watchers, 0);
    assert Pass(tasks, watchers) == PassFrom(tasks, watchers, 0);
  }

  /** The dispatches that involve one of the first n watchers. */
  function Keep(ds: seq<Dispatch>, n: nat): (kept: seq<Dispatch>)
  {
    if ds == [] then []
    else (if ds[0].watcher < n then [ds[0]] else []) + Keep(ds[1..], n)
  }

  lemma {:induction false} KeepConcat(xs: seq<Dispatch>, ys: seq<Dispatch>, n: nat)
    ensures Keep(xs + ys, n) == Keep(xs, n) + Keep(ys, n)
  {
    if xs == [] {
      assert xs + ys == ys;
    } else {
      assert (xs + ys)[0] == xs[0];
      assert (xs + ys)[1..] == xs[1..] + ys;
      KeepConcat(xs[1..], ys, n);
    }
  }

  lemma {:induction false} FireAfterRegister(i: nat, task: Task, state: string, watchers: seq<Watcher>, w: Watcher, j: nat)
    requires j <= |watchers|
    ensures Keep(Fire(i, task, state, watchers + [w], j), |watchers|) == Fire(i, task, state, watchers, j)
    decreases |watchers| - j
  {
    var ws := watchers + [w];
    if j == |watchers| {
      assert Fire(i, task, state, ws, j + 1) == [];
    } else {
      FireAfterRegister(i, task, state, watchers, w, j + 1);
      assert ws[j] == watchers[j];
      var rest := Fire(i, task, state, ws, j + 1);
      if ws[j].trigger == state {
        assert Keep([Dispatch(i, task, j)] + rest, |watchers|) == [Dispatch(i, task, j)] + Keep(rest, |watchers|) by {
          assert ([Dispatch(i, task, j)] + rest)[1..] == rest;
        }
      }
    }
  }

  lemma {:induction false} PassFromAfterRegister(tasks: seq<Task>, watchers: seq<Watcher>, w: Watcher, i: nat)
    requires i <= |tasks|
    ensures Keep(PassFrom(tasks, watchers + [w], i), |watchers|) == PassFrom(tasks, watchers, i)
    decreases |tasks| - i
  {
    if i < |tasks| {
      PassFromAfterRegister(tasks, watchers, w, i + 1);
      KeepConcat(TaskDispatches(i, tasks[i], watchers + [w]), PassFrom(tasks, watchers + [w], i + 1), |watchers|);
      if StateOf(tasks[i]) != "" {
        FireAfterRegister(i, tasks[i], StateOf(tasks[i]), watchers, w, 0);
      }
    }
  }

  /**
   * Registering a watcher leaves the dispatches of the earlier watchers, and
   * their order, exactly as they were: it only adds invocations of the new one.
   */
  lemma RegisterAddsOnlyNewDispatches(tasks: seq<Task>, watchers: seq<Watcher>, w: Watcher)
    ensures Keep(Pass(tasks, watchers + [w]), |watchers|) == Pass(tasks, watchers)
    ensures forall d :: d in Pass(tasks, watchers + [w]) && d !in Pass(tasks, watchers) ==> d.watcher == |watchers|
  {
    PassFromAfterRegister(tasks, watchers, w, 0);
    PassSpec(tasks, watchers);
    PassSpec(tasks, watchers + [w]);
  }

  /**
   * Start's loop as written: a pass per successful listing, ending at the
   * first failed listing. The context check does not take part, because the
   * `break` inside the `select` leaves only the `select`.
   */
  function RunAsWritten(polls: seq<Poll>, watchers: seq<Watcher>): seq<seq<Dispatch>> {
    if polls == [] || polls[0].listed.Err? then []
    else [Pass(polls[0].listed.value, watchers)] + RunAsWritten(polls[1..], watchers)
  }

  /**
   * The loop as written runs Pass over each listing up to the first failed
   * one, which invokes nothing and ends the loop; cancellation plays no part.
   */
  lemma {:induction false} RunAsWrittenSpec(polls: seq<Poll>, watchers: seq<Watcher>)
    ensures |RunAsWritten(polls, watchers)| <= |polls|
    ensures forall k :: 0 <= k < |RunAsWritten(polls, watchers)| ==>
      polls[k].listed.Ok? && RunAsWritten(polls, watchers)[k] == Pass(polls[k].listed.value, watchers)
    ensures |RunAsWritten(polls, watchers)| < |polls| ==> polls[|RunAsWritten(polls, watchers)|].listed.Err?
  {
    if polls != [] && polls[0].listed.Ok? {
      RunAsWrittenSpec(polls[1..], watchers);
    }
  }

  /** A listing the source loop polls after the context is done still invokes actions. */
  lemma CancelledContextKeepsPolling()
    ensures var task := Task("rec1", Rows.Object(map["State" := Rows.Str("ToDo")]));
            var polls := [Poll(Ok([task]), true), Poll(Ok([task]), true)];
            RunAsWritten(polls, [Watcher("ToDo", 0)]) == [[Dispatch(0, task, 0)], [Dispatch(0, task, 0)]]
  {
    var task := Task("rec1", Rows.Object(map["State" := Rows.Str("ToDo")]));
    var ws := [Watcher("ToDo", 0)];
    assert StateOf(task) == "ToDo";
    assert Fire(0, task, "ToDo", ws, 1) == [];
    assert Pass([task], ws) == [Dispatch(0, task, 0)] by {
      assert PassFrom([task], ws, 1) == [];
    }
    var polls := [Poll(Ok([task]), true), Poll(Ok([task]), true)];
    assert polls[1..][1..] == [];
    assert RunAsWritten(polls[1..], ws) == [Pass([task], ws)] + RunAsWritten(polls[1..][1..], ws);
    assert RunAsWritten(polls, ws) == [Pass([task], ws)] + RunAsWritten(polls[1..], ws);
  }

  /**
   * Start's loop as evidently intended: as RunAsWritten, but also ending
   * after the pass whose context check finds the context done.
   */
  function Run(polls: seq<Poll>, watchers: seq<Watcher>): seq<seq<Dispatch>> {
    if polls == [] || polls[0].listed.Err? then []
    else [Pass(polls[0].listed.value, watchers)] + (if polls[0].ctxDone then [] else Run(polls[1..], watchers))
  }

  /**
   * The intended loop runs Pass over each listing until a failed listing
   * (which invokes nothing) or until the pass after which the context check
   * finds cancellation, whichever comes first.
   */
  lemma {:induction false} RunSpec(polls: seq<Poll>, watchers: seq<Watcher>)
    ensures |Run(polls, watchers)| <= |polls|
    ensures forall k :: 0 <= k < |Run(polls, watchers)| ==>
      polls[k].listed.Ok? && Run(polls, watchers)[k] == Pass(polls[k].listed.value, watchers)
    ensures forall k :: 0 <= k < |Run(polls, watchers)| - 1 ==> !polls[k].ctxDone
    ensures |Run(polls, watchers)| < |polls| ==>
      polls[|Run(polls, watchers)|].listed.Err? || (|Run(polls, watchers)| > 0 && polls[|Run(polls, watchers)| - 1].ctxDone)
  {
    if polls != [] && polls[0].listed.Ok? && !polls[0].ctxDone {
      RunSpec(polls[1..], watchers);
    }
  }

  /** No pass runs after the one whose context check sees cancellation. */
  lemma RunStopsOnCancellation(polls: seq<Poll>, watchers: seq<Watcher>, k: nat)
    requires k < |polls| && polls[k].ctxDone
    ensures |Run(polls, watchers)| <= k + 1
  {
    RunSpec(polls, watchers);
  }

  class Tasker {
    var pollInterval: Duration
    var airtableTable: string
    /** Whether actions run in their own goroutines. */
    var async: bool
    var airtableKey: string
    var airtableBase: string
    var timeout: Duration
    var watchers: seq<Watcher>

    /** The struct literal of NewTasker; `timeout` and `watchers` keep Go's zero values. */
    constructor (airtableKey: string, airtableBase: string, tableName: string)
      ensures this.airtableKey == airtableKey && this.airtableBase == airtableBase
      ensures pollInterval == DefaultAirtablePollInterval && pollInterval == 10 * Second
      ensures airtableTable == tableName
      ensures async == DefaultAsync && !async
      ensures timeout == 0 && watchers == []
    {
      this.airtableKey := airtableKey;
      this.airtableBase := airtableBase;
      pollInterval := DefaultAirtablePollInterval;
      airtableTable := tableName;
      async := DefaultAsync;
      timeout := 0;
      watchers := [];
    }

    /** RegisterFunction: appends one watcher; the earlier ones stay, in order. */
    method RegisterFunction(triggerState: string, actionFunction: Action)
      modifies this`watchers
      ensures watchers == old(watchers) + [Watcher(triggerState, actionFunction)]
      ensures |watchers| == |old(watchers)| + 1 && watchers[..|old(watchers)|] == old(watchers)
    {
      watchers := watchers + [Watcher(triggerState, actionFunction)];
    }

    /**
     * One iteration of Start's loop: on a failed listing nothing is invoked
     * and the loop stops; otherwise the actions are invoked (or, when async,
     * started) in the order of Pass.
     */
    method StartIteration(listed: Result<seq<Task>>) returns (invoked: seq<Dispatch>, stop: bool)
      ensures stop <==> listed.Err?
      ensures listed.Err? ==> invoked == []
      ensures listed.Ok? ==> invoked == Pass(listed.value, watchers)
    {
      invoked := [];
      if listed.Err? {
        return invoked, true;
      }
      stop := false;
      var tasks := listed.value;
      var ws := watchers;
      ghost var all := Pass(tasks, ws);
      var i := 0;
      while i < |tasks|
        invariant 0 <= i <= |tasks|
        invariant invoked + PassFrom(tasks, ws, i) == all
      {
        var task := tasks[i];
        var state := StateOf(task);
        ghost var rest := PassFrom(tasks, ws, i + 1);
        assert PassFrom(tasks, ws, i) == TaskDispatches(i, task, ws) + rest;
        if state != "" {
          var j := 0;
          while j < |ws|
            invariant 0 <= j <= |ws|
            invariant invoked + Fire(i, task, state, ws, j) + rest == all
          {
            ghost var fired := Fire(i, task, state, ws, j + 1);
            if ws[j].trigger == state {
              assert Fire(i, task, state, ws, j) == [Dispatch(i, task, j)] + fired;
              assert invoked + ([Dispatch(i, task, j)] + fired) + rest == (invoked + [Dispatch(i, task, j)]) + fired + rest;
              invoked := invoked + [Dispatch(i, task, j)];
            } else {
              assert Fire(i, task, state, ws, j) == fired;
            }
            j := j + 1;
          }
          assert Fire(i, task, state, ws, |ws|) == [];
          assert invoked + [] + rest == invoked + rest;
        } else {
          assert invoked + [] + rest == invoked + rest;
        }
        i := i + 1;
      }
      assert PassFrom(tasks, ws, |tasks|) == [];
      assert invoked + [] == invoked;
    }

    /** Start, over the iterations it gets to observe: the passes of RunAsWritten. */
    method Start(polls: seq<Poll>) returns (passes: seq<seq<Dispatch>>)
      ensures passes == RunAsWritten(polls, watchers)
    {
      passes := [];
      var k := 0;
      while k < |polls|
        invariant 0 <= k <= |polls|
        invariant passes + RunAsWritten(polls[k..], watchers) == RunAsWritten(polls, watchers)
      {
        var invoked, stop := StartIteration(polls[k].listed);
        if stop {
          assert RunAsWritten(polls[k..], watchers) == [];
          break;
        }
        assert polls[k..][1..] == polls[k + 1..];
        passes := passes + [invoked];
        // The context check selects on ctx.Done() and leaves only the select.
        k := k + 1;
      }
    }
  }

  /** NewTasker, given what airtable.New returned while connecting. */
  method NewTasker(airtableKey: string, airtableBase: string, tableName: string, connectErr: Option<Error>)
    returns (tasker: Tasker?, err: Option<Error>)
    ensures err == connectErr
    ensures connectErr.Some? <==> tasker == null
    ensures tasker != null ==>
      && fresh(tasker) && tasker.pollInterval == DefaultAirtablePollInterval
      && tasker.airtableTable == tableName && !tasker.async && tasker.watchers == []
      && tasker.airtableKey == airtableKey && tasker.airtableBase == airtableBase
  {
    var t := new Tasker(airtableKey, airtableBase, tableName);
    if connectErr.Some? {
      return null, connectErr;
    }
    return t, None;
  }
}
