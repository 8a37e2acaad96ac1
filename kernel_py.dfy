/**
 * The task list of `src/kernel.py`: a growable list of tasks with a
 * delay, a period and an activation counter, ticked by `Sched_Schedule`
 * and run by `Sched_Dispatch`, which removes one-shot tasks as it goes.
 * Task functions are opaque identifiers; the model logs the identifier
 * of every function called, in order. The timer calls are left out.
 */
module KernelPy {
  import opened Wrappers

  /** A `Task` object; `func == None` is a task without a function. */
  datatype Task = Task(func: Option<nat>, delay: int, period: int, counter: int)

  /** `Task(func, delay, period)`, with the counter starting at 0. */
  function NewTask(func: Option<nat>, delay: int, period: int): Task
  {
    Task(func, delay, period, 0)
  }

  /** One tick of `Sched_Schedule` on one task. */
  function TickTask(t: Task): (r: Task)
    ensures r.func == t.func && r.period == t.period
    ensures r.counter == t.counter || r.counter == t.counter + 1
    ensures r.counter != t.counter <==> t.func != None && t.delay <= 0
  {
    if t.func == None then t
    else if t.delay > 0 then t.(delay := t.delay - 1)
    else t.(counter := t.counter + 1, delay := t.period - 1)
  }

  /** The whole list after `Sched_Schedule`: same length and order, each task ticked. */
  function Tick(ts: seq<Task>): (r: seq<Task>)
    ensures |r| == |ts|
    ensures forall i :: 0 <= i < |ts| ==>
      r[i].func == ts[i].func && r[i].period == ts[i].period && r[i].counter >= ts[i].counter
  {
    seq(|ts|, i requires 0 <= i < |ts| => TickTask(ts[i]))
  }

  /** A task after `n` ticks. */
  function TickN(t: Task, n: nat): Task
  {
    if n == 0 then t else TickTask(TickN(t, n - 1))
  }

  /**
   * The test is `delay > 0`, not "nonzero": a one-shot task whose delay
   * has run out stays at delay -1 and has its counter raised on every tick.
   */
  lemma {:induction false} OneShotCountsEveryTick(t: Task, n: nat)
    requires t.func != None && t.period == 0 && t.delay <= 0
    ensures TickN(t, n).func == t.func && TickN(t, n).period == 0
    ensures TickN(t, n).counter == t.counter + n
    ensures n >= 1 ==> TickN(t, n).delay == -1
  {
    if n > 0 {
      OneShotCountsEveryTick(t, n - 1);
    }
  }

  /** A task `Sched_Dispatch` runs. */
  predicate Due(t: Task)
  {
    t.func != None && t.counter != 0
  }

  /** The list, the calls made and the exception raised by a dispatch pass. */
  datatype Pass = Pass(tasks: seq<Task>, calls: seq<nat>, error: Option<PyError>)

  function Prefixed(calls: seq<nat>, p: Pass): Pass
  {
    Pass(p.tasks, calls + p.calls, p.error)
  }

  /**
   * `Sched_Dispatch` as written, from loop index `i` up to the bound `n`
   * fixed at entry: `tasks[i]` raises IndexError once removals have made
   * the list shorter than `n`, and a removal moves the next task to the
   * index just visited.
   */
  function DispatchFrom(ts: seq<Task>, i: nat, n: nat): (r: Pass)
    ensures |r.tasks| <= |ts| && (r.calls == [] || |r.calls| <= n - i)
    ensures r.error == None || r.error == Some(IndexError)
    decreases n - i
  {
    if i >= n then Pass(ts, [], None)
    else if i >= |ts| then Pass(ts, [], Some(IndexError))
    else if !Due(ts[i]) then DispatchFrom(ts, i + 1, n)
    else
      var t := ts[i].(counter := 0);
      var rest := if t.period == 0 then ts[..i] + ts[i + 1..] else ts[i := t];
      Prefixed([t.func.value], DispatchFrom(rest, i + 1, n))
  }

  /** One due task in the pass as written: its call is logged and the walk goes on at `i + 1`. */
  lemma DueStep(ts: seq<Task>, i: nat, n: nat, c0: seq<nat>)
    requires i < n && i < |ts| && Due(ts[i])
    ensures var t := ts[i].(counter := 0);
      var rest := if t.period == 0 then ts[i := t][..i] + ts[i := t][i + 1..] else ts[i := t];
      Prefixed(c0, DispatchFrom(ts, i, n)) == Prefixed(c0 + [t.func.value], DispatchFrom(rest, i + 1, n))
  {
    var t := ts[i].(counter := 0);
    if t.period == 0 {
      assert ts[i := t][..i] + ts[i := t][i + 1..] == ts[..i] + ts[i + 1..];
    }
  }

  // ---------------------------------------------------- the intended pass

  /** The call a single task contributes to a pass: its function when it is due. */
  function CallOf(t: Task): seq<nat>
  {
    if Due(t) then [t.func.value] else []
  }

  /** A single task after a pass: kept when not due, dropped when one-shot, else counter cleared. */
  function SettledOf(t: Task): seq<Task>
  {
    if !Due(t) then [t] else if t.period == 0 then [] else [t.(counter := 0)]
  }

  /** The functions of the due tasks in `s`, in list order. */
  function DueCalls(s: seq<Task>): seq<nat>
  {
    if s == [] then [] else CallOf(s[0]) + DueCalls(s[1..])
  }

  /** `s` after every due task has run: counters cleared, one-shot tasks gone. */
  function Settled(s: seq<Task>): seq<Task>
  {
    if s == [] then [] else SettledOf(s[0]) + Settled(s[1..])
  }

  lemma {:induction false} DueCallsAppend(a: seq<Task>, b: seq<Task>)
    ensures DueCalls(a + b) == DueCalls(a) + DueCalls(b)
  {
    if a == [] {
      assert a + b == b;
    } else {
      var ab, c := a + b, CallOf(a[0]);
      assert DueCalls(ab) == c + DueCalls(a[1..] + b) by {
        assert ab[0] == a[0] && ab[1..] == a[1..] + b;
      }
      DueCallsAppend(a[1..], b);
      assert DueCalls(a) == c + DueCalls(a[1..]);
      assert c + (DueCalls(a[1..]) + DueCalls(b)) == (c + DueCalls(a[1..])) + DueCalls(b);
    }
  }

  lemma {:induction false} SettledAppend(a: seq<Task>, b: seq<Task>)
    ensures Settled(a + b) == Settled(a) + Settled(b)
  {
    if a == [] {
      assert a + b == b;
    } else {
      var ab, c := a + b, SettledOf(a[0]);
      assert Settled(ab) == c + Settled(a[1..] + b) by {
        assert ab[0] == a[0] && ab[1..] == a[1..] + b;
      }
      SettledAppend(a[1..], b);
      assert Settled(a) == c + Settled(a[1..]);
      assert c + (Settled(a[1..]) + Settled(b)) == (c + Settled(a[1..])) + Settled(b);
    }
  }

  lemma Regroup(a: seq<Task>, x: seq<Task>, s: seq<Task>, r: seq<Task>)
    ensures a + x + s + r == a + (x + s) + r
  {
  }

  /**
   * The pass the loop evidently means: visit each of the next `n` tasks of
   * the list once, staying at the same index after a removal.
   */
  function DispatchFixed(ts: seq<Task>, i: nat, n: nat): (r: Pass)
    requires i <= |ts|
    ensures r.error == None
    decreases n
  {
    if n == 0 || i == |ts| then Pass(ts, [], None)
    else if !Due(ts[i]) then DispatchFixed(ts, i + 1, n - 1)
    else if ts[i].period == 0 then Prefixed([ts[i].func.value], DispatchFixed(ts[..i] + ts[i + 1..], i, n - 1))
    else Prefixed([ts[i].func.value], DispatchFixed(ts[i := ts[i].(counter := 0)], i + 1, n - 1))
  }

  /** What the corrected pass from index `i` over `n` tasks should produce. */
  predicate FixedSpec(ts: seq<Task>, i: nat, n: nat)
    requires i <= |ts|
  {
    var m := if n <= |ts| - i then n else |ts| - i;
    var p := DispatchFixed(ts, i, n);
    p.error == None
    && p.calls == DueCalls(ts[i..i + m])
    && p.tasks == ts[..i] + Settled(ts[i..i + m]) + ts[i + m..]
  }

  /**
   * The corrected pass over a window `w` of the list, between an untouched
   * prefix `pre` and suffix `post`: it visits all of `w` (and stops there,
   * either because the count runs out or because the list ends).
   */
  lemma {:induction false} FixedOnWindow(pre: seq<Task>, w: seq<Task>, post: seq<Task>, n: nat)
    requires n == |w| || (post == [] && n >= |w|)
    ensures DispatchFixed(pre + w + post, |pre|, n) == Pass(pre + Settled(w) + post, DueCalls(w), None)
    decreases |w|, 1
  {
    if w == [] {
      assert pre + w + post == pre + post;
    } else if !Due(w[0]) {
      WindowSkip(pre, w, post, n);
    } else if w[0].period == 0 {
      WindowRemove(pre, w, post, n);
    } else {
      WindowReset(pre, w, post, n);
    }
  }

  lemma {:induction false} WindowSkip(pre: seq<Task>, w: seq<Task>, post: seq<Task>, n: nat)
    requires n == |w| || (post == [] && n >= |w|)
    requires w != [] && !Due(w[0])
    ensures DispatchFixed(pre + w + post, |pre|, n) == Pass(pre + Settled(w) + post, DueCalls(w), None)
    decreases |w|, 0
  {
    var ts, x, w1 := pre + w + post, w[0], w[1..];
    assert ts[|pre|] == x;
    assert ts == (pre + [x]) + w1 + post;
    FixedOnWindow(pre + [x], w1, post, n - 1);
    Regroup(pre, [x], Settled(w1), post);
  }

  lemma {:induction false} WindowRemove(pre: seq<Task>, w: seq<Task>, post: seq<Task>, n: nat)
    requires n == |w| || (post == [] && n >= |w|)
    requires w != [] && Due(w[0]) && w[0].period == 0
    ensures DispatchFixed(pre + w + post, |pre|, n) == Pass(pre + Settled(w) + post, DueCalls(w), None)
    decreases |w|, 0
  {
    var ts, w1, x := pre + w + post, w[1..], w[0].func.value;
    var rest := ts[..|pre|] + ts[|pre| + 1..];
    assert rest == pre + w1 + post by {
      assert ts[..|pre|] == pre;
      assert ts[|pre| + 1..] == w1 + post;
    }
    assert DispatchFixed(ts, |pre|, n) == Prefixed([x], DispatchFixed(rest, |pre|, n - 1)) by {
      assert ts[|pre|] == w[0];
    }
    FixedOnWindow(pre, w1, post, n - 1);
    assert Settled(w) == Settled(w1) by {
      assert SettledOf(w[0]) == [];
    }
    assert DueCalls(w) == [x] + DueCalls(w1) by {
      assert CallOf(w[0]) == [x];
    }
  }

  lemma {:induction false} WindowReset(pre: seq<Task>, w: seq<Task>, post: seq<Task>, n: nat)
    requires n == |w| || (post == [] && n >= |w|)
    requires w != [] && Due(w[0]) && w[0].period != 0
    ensures DispatchFixed(pre + w + post, |pre|, n) == Pass(pre + Settled(w) + post, DueCalls(w), None)
    decreases |w|, 0
  {
    var ts, x1, w1 := pre + w + post, w[0].(counter := 0), w[1..];
    assert ts[|pre|] == w[0];
    var rest := ts[|pre| := x1];
    assert rest == (pre + [x1]) + w1 + post;
    FixedOnWindow(pre + [x1], w1, post, n - 1);
    assert DispatchFixed(ts, |pre|, n) == Prefixed([w[0].func.value], DispatchFixed(rest, |pre| + 1, n - 1));
    Regroup(pre, [x1], Settled(w1), post);
    assert SettledOf(w[0]) == [x1] && Settled(w) == [x1] + Settled(w1);
    assert DueCalls(w) == [w[0].func.value] + DueCalls(w1);
  }

  /**
   * The corrected pass calls every due task among the `n` visited exactly
   * once, in list order, clears their counters, drops the one-shot ones,
   * leaves every other task where it was, and never raises.
   */
  lemma FixedDispatchesAll(ts: seq<Task>, i: nat, n: nat)
    requires i <= |ts|
    ensures FixedSpec(ts, i, n)
  {
    var m := if n <= |ts| - i then n else |ts| - i;
    assert ts == ts[..i] + ts[i..i + m] + ts[i + m..];
    FixedOnWindow(ts[..i], ts[i..i + m], ts[i + m..], n);
  }

  /** Without a due one-shot task in the visited range, the loop as written does what was intended. */
  lemma {:induction false} AsWrittenAgrees(ts: seq<Task>, i: nat, n: nat)
    requires i <= n <= |ts|
    requires forall j :: i <= j < n ==> !(Due(ts[j]) && ts[j].period == 0)
    ensures DispatchFrom(ts, i, n) == DispatchFixed(ts, i, n - i)
    decreases n - i
  {
    if i < n && Due(ts[i]) {
      AsWrittenAgrees(ts[i := ts[i].(counter := 0)], i + 1, n);
    } else if i < n {
      AsWrittenAgrees(ts, i + 1, n);
    }
  }

  /** Two due tasks, the first one-shot: the second is never run and the pass raises IndexError. */
  lemma RemovalRaises()
    ensures var ts := [NewTask(Some(1), 0, 0).(counter := 1), NewTask(Some(2), 0, 5).(counter := 1)];
      DispatchFrom(ts, 0, 2) == Pass([ts[1]], [1], Some(IndexError))
      && DispatchFixed(ts, 0, 2) == Pass([ts[1].(counter := 0)], [1, 2], None)
  {
    var ts := [NewTask(Some(1), 0, 0).(counter := 1), NewTask(Some(2), 0, 5).(counter := 1)];
    assert ts[..0] + ts[1..] == [ts[1]];
    assert [ts[1]][..0] + [ts[1]][1..] == [];
  }

  /** Three due tasks, the first one-shot, visited up to index 2: the second is skipped. */
  lemma RemovalSkips()
    ensures var ts := [NewTask(Some(1), 0, 0).(counter := 1), NewTask(Some(2), 0, 5).(counter := 1),
                       NewTask(Some(3), 0, 5).(counter := 1)];
      DispatchFrom(ts, 0, 2) == Pass([ts[1], ts[2].(counter := 0)], [1, 3], None)
      && DispatchFixed(ts, 0, 2) == Pass([ts[1].(counter := 0), ts[2]], [1, 2], None)
  {
    var ts := [NewTask(Some(1), 0, 0).(counter := 1), NewTask(Some(2), 0, 5).(counter := 1),
               NewTask(Some(3), 0, 5).(counter := 1)];
    assert ts[..0] + ts[1..] == [ts[1], ts[2]];
  }

  // ---------------------------------------------------------- the globals

  /** The module's global `tasks` list, `current_task`, and the log of functions called. */
  class Scheduler {
    var tasks: seq<Task>
    var currentTask: nat
    var invoked: seq<nat>

    constructor()
      ensures tasks == [] && currentTask == 0 && invoked == []
    {
      tasks := [];
      currentTask := 0;
      invoked := [];
    }

    /** `Sched_AddTask`: append one task and point `current_task` past the end. */
    method AddTask(func: Option<nat>, delay: int, period: int)
      modifies this
      ensures tasks == old(tasks) + [NewTask(func, delay, period)]
      ensures currentTask == |tasks| && invoked == old(invoked)
    {
      tasks := tasks + [NewTask(func, delay, period)];
      currentTask := |tasks|;
    }

    /** `Sched_Schedule`. */
    method Schedule()
      modifies this
      ensures tasks == Tick(old(tasks))
      ensures currentTask == old(currentTask) && invoked == old(invoked)
    {
      for i := 0 to |tasks|
        invariant |tasks| == |old(tasks)|
        invariant currentTask == old(currentTask) && invoked == old(invoked)
        invariant forall j :: 0 <= j < i ==> tasks[j] == TickTask(old(tasks)[j])
        invariant forall j :: i <= j < |tasks| ==> tasks[j] == old(tasks)[j]
      {
        var task := tasks[i];
        if task.func == None {
          continue;
        }
        if task.delay > 0 {
          task := task.(delay := task.delay - 1);
        } else {
          task := task.(counter := task.counter + 1, delay := task.period - 1);
        }
        tasks := tasks[i := task];
      }
    }

    /** `Sched_Dispatch`, as written; `err` is the exception it raises. */
    method Dispatch() returns (err: Option<PyError>)
      modifies this
      ensures var p := DispatchFrom(old(tasks), 0, old(currentTask));
        tasks == p.tasks && invoked == old(invoked) + p.calls && err == p.error
      ensures currentTask == old(currentTask)
    {
      var prevTask := currentTask;
      var n := currentTask;
      ghost var calls: seq<nat> := [];
      for i := 0 to n
        invariant currentTask == prevTask && invoked == old(invoked) + calls
        invariant DispatchFrom(old(tasks), 0, n) == Prefixed(calls, DispatchFrom(tasks, i, n))
      {
        if i >= |tasks| {
          return Some(IndexError);
        }
        var task := tasks[i];
        if task.func == None || task.counter == 0 {
          continue;
        }
        ghost var before, c0 := tasks, calls;
        task := task.(counter := 0);
        tasks := tasks[i := task];
        currentTask := i;
        invoked := invoked + [task.func.value];
        calls := calls + [task.func.value];
        currentTask := prevTask;
        if task.period == 0 {
          tasks := tasks[..i] + tasks[i + 1..];
        }
        DueStep(before, i, n, c0);
      }
      return None;
    }

    /** `Sched_Interrupt` without the timer: a schedule tick, then a dispatch. */
    method Interrupt() returns (err: Option<PyError>)
      modifies this
      ensures var p := DispatchFrom(Tick(old(tasks)), 0, old(currentTask));
        tasks == p.tasks && invoked == old(invoked) + p.calls && err == p.error
      ensures currentTask == old(currentTask)
    {
      Schedule();
      err := Dispatch();
    }
  }
}
