/**
 * The periodic task table of `kernel.c`: a fixed array of 20 slots, each
 * with a period and a delay in ticks, a function pointer (0 is NULL) and
 * an activation counter. A timer tick schedules (counts activations) and
 * then dispatches (runs activated tasks once each, freeing one-shot ones).
 * The task functions are opaque: the model logs which slot was run.
 * `IntHandler` is `int_handler`, the handler the program evidently means to
 * run on SIGALRM: as written, `Sched_Init` installs `alarmWakeup`, which is
 * declared nowhere, and `ualarm(0, 1)`, with a zero first delay, arms no timer.
 */
module KernelC {

  /** Number of slots in the table. */
  const NT: nat := 20
  /** Signal number of SIGALRM on Linux. */
  const SIGALRM: int := 14

  /** `Sched_Task_t`; `func == 0` marks a free slot. */
  datatype Slot = Slot(period: int, delay: int, func: nat, exec: int)

  predicate Occupied(s: Slot)
  {
    s.func != 0
  }

  /** The slot `Sched_AddT` fills: the lowest free index, or -1 when all are taken. */
  function FirstFree(t: seq<Slot>): (x: int)
    ensures -1 <= x < |t|
    ensures x == -1 <==> forall i :: 0 <= i < |t| ==> Occupied(t[i])
    ensures x >= 0 ==> !Occupied(t[x]) && forall i :: 0 <= i < x ==> Occupied(t[i])
  {
    if t == [] then -1
    else if !Occupied(t[0]) then 0
    else
      var r := FirstFree(t[1..]);
      assert forall i :: 1 <= i < |t| ==> t[i] == t[1..][i - 1];
      if r == -1 then -1 else r + 1
  }

  /** One tick of `Sched_Schedule` on one slot. */
  function TickSlot(s: Slot): (r: Slot)
    ensures r.func == s.func && r.period == s.period
    ensures r.exec == s.exec || r.exec == s.exec + 1
    ensures r.exec != s.exec <==> Occupied(s) && s.delay == 0
  {
    if !Occupied(s) then s
    else if s.delay != 0 then s.(delay := s.delay - 1)
    else s.(exec := s.exec + 1, delay := s.period - 1)
  }

  /** What `Sched_Dispatch` leaves in a slot below `cur_task`. */
  function Fire(s: Slot): (r: Slot)
    ensures r.period == s.period && r.delay == s.delay
    ensures !Ready(r)
    ensures Ready(s) ==> r.exec == 0 && (Occupied(r) <==> s.period != 0)
    ensures !Ready(s) ==> r == s
  {
    if Occupied(s) && s.exec != 0 then
      s.(exec := 0, func := if s.period == 0 then 0 else s.func)
    else s
  }

  predicate Ready(s: Slot)
  {
    Occupied(s) && s.exec != 0
  }

  /** The whole table after one `Sched_Schedule` tick. */
  function Tick(t: seq<Slot>): (r: seq<Slot>)
    ensures |r| == |t|
  {
    seq(|t|, i requires 0 <= i < |t| => TickSlot(t[i]))
  }

  /** The slots `Sched_Dispatch` runs, in the order it runs them: ready ones below `n`. */
  function Due(t: seq<Slot>, n: nat): (r: seq<nat>)
    requires n <= |t|
    ensures |r| <= n
  {
    if n == 0 then [] else Due(t, n - 1) + (if Ready(t[n - 1]) then [n - 1] else [])
  }

  /** Every ready slot below `n` is run exactly once, in increasing index order, and no other. */
  lemma {:induction false} DueExactlyReady(t: seq<Slot>, n: nat)
    requires n <= |t|
    ensures forall i: nat :: i in Due(t, n) <==> i < n && Ready(t[i])
    ensures forall a, b :: 0 <= a < b < |Due(t, n)| ==> Due(t, n)[a] < Due(t, n)[b]
    ensures forall a :: 0 <= a < |Due(t, n)| ==> Due(t, n)[a] < n
  {
    if n > 0 {
      DueExactlyReady(t, n - 1);
    }
  }

  // ------------------------------------------------------ periodic firing

  /** A slot after `n` ticks of `Sched_Schedule` with no dispatch in between. */
  function TickN(s: Slot, n: nat): Slot
  {
    if n == 0 then s else TickSlot(TickN(s, n - 1))
  }

  lemma MulAtLeast(k: int, p: int)
    requires k >= 1 && p >= 1
    ensures k * p >= p
  {
    assert k * p == (k - 1) * p + p;
  }

  lemma DivModUnique(m: int, p: int, q: int, r: int)
    requires p >= 1 && 0 <= r < p && m == q * p + r
    ensures m / p == q && m % p == r
  {
    var q1, r1 := m / p, m % p;
    assert m == q1 * p + r1;
    if q1 > q {
      assert (q1 - q) * p == q1 * p - q * p;
      MulAtLeast(q1 - q, p);
    } else if q1 < q {
      assert (q - q1) * p == q * p - q1 * p;
      MulAtLeast(q - q1, p);
    }
  }

  lemma ModStep(m: nat, p: int)
    requires p >= 1
    ensures (m + 1) % p == if m % p == p - 1 then 0 else m % p + 1
  {
    var q, r := m / p, m % p;
    if r == p - 1 {
      DivModUnique(m + 1, p, q + 1, 0);
    } else {
      DivModUnique(m + 1, p, q, r + 1);
    }
  }

  /** Where the countdown stands after `n` ticks: first the initial delay, then a cycle of `period`. */
  lemma {:induction false} DelayAfter(s: Slot, n: nat)
    requires Occupied(s) && s.delay >= 0 && s.period >= 1
    ensures TickN(s, n).func == s.func && TickN(s, n).period == s.period
    ensures TickN(s, n).delay == if n <= s.delay then s.delay - n else s.period - 1 - (n - s.delay - 1) % s.period
  {
    if n > 0 {
      var t := TickN(s, n - 1);
      DelayAfter(s, n - 1);
      assert TickN(s, n) == TickSlot(t);
      if n - 1 > s.delay {
        CycleStep(n - 1 - s.delay - 1, s.period);
      } else if n - 1 == s.delay {
        assert (n - s.delay - 1) % s.period == 0;
      }
    }
  }

  /** One tick inside the cycle: from `p - 1 - m % p`, the countdown moves to `p - 1 - (m + 1) % p`. */
  lemma CycleStep(m: nat, p: int)
    requires p >= 1
    ensures var d := p - 1 - m % p;
      (if d != 0 then d - 1 else p - 1) == p - 1 - (m + 1) % p
  {
    ModStep(m, p);
  }

  /**
   * A task added with delay `d` and period `p >= 1` is activated on tick
   * `d + 1` and on every `p`-th tick after it, and on no other tick.
   */
  lemma FiresOnSchedule(s: Slot, k: nat)
    requires Occupied(s) && s.delay >= 0 && s.period >= 1 && k >= 1
    ensures TickN(s, k).exec ==
      TickN(s, k - 1).exec + if k > s.delay && (k - s.delay - 1) % s.period == 0 then 1 else 0
  {
    var t := TickN(s, k - 1);
    assert TickN(s, k) == TickSlot(t);
    DelayAfter(s, k - 1);
    CountdownAtZero(s, k);
  }

  /** A slot below `cur_task` after `n` timer interrupts, each a tick followed by a dispatch. */
  function HandleN(s: Slot, n: nat): (r: Slot)
    ensures r.period == s.period && (Occupied(r) ==> r.func == s.func)
    ensures !Occupied(s) ==> r == s
    ensures n >= 1 ==> !Ready(r)
  {
    if n == 0 then s else Fire(TickSlot(HandleN(s, n - 1)))
  }

  /** Whether the dispatch of interrupt number `k` (counting from 1) calls the slot's function. */
  predicate CalledAt(s: Slot, k: nat)
    requires k >= 1
  {
    Ready(TickSlot(HandleN(s, k - 1)))
  }

  /** Under interrupts a periodic slot follows the bare countdown, with its counter cleared each time. */
  lemma {:induction false} HandleTracksTick(s: Slot, n: nat)
    requires Occupied(s) && s.delay >= 0 && s.period >= 1 && s.exec == 0
    ensures HandleN(s, n) == TickN(s, n).(exec := 0)
  {
    if n > 0 {
      HandleTracksTick(s, n - 1);
      DelayAfter(s, n - 1);
    }
  }

  /**
   * A periodic task added with delay `d` and period `p` has its function
   * called in interrupt `d + 1` and in every `p`-th interrupt after it,
   * and in no other.
   */
  lemma PeriodicCalls(s: Slot, k: nat)
    requires Occupied(s) && s.delay >= 0 && s.period >= 1 && s.exec == 0 && k >= 1
    ensures CalledAt(s, k) <==> k > s.delay && (k - s.delay - 1) % s.period == 0
  {
    var t := TickN(s, k - 1);
    HandleTracksTick(s, k - 1);
    DelayAfter(s, k - 1);
    assert HandleN(s, k - 1) == t.(exec := 0);
    assert CalledAt(s, k) <==> t.delay == 0;
    CountdownAtZero(s, k);
  }

  /** The countdown reaches zero after `k - 1` ticks exactly on the ticks where the slot activates. */
  lemma CountdownAtZero(s: Slot, k: nat)
    requires Occupied(s) && s.delay >= 0 && s.period >= 1 && k >= 1
    ensures TickN(s, k - 1).delay == 0 <==> k > s.delay && (k - s.delay - 1) % s.period == 0
  {
    DelayAfter(s, k - 1);
    if k - 1 > s.delay {
      ModStep(k - 1 - s.delay - 1, s.period);
    }
  }

  /** A one-shot slot counts down, then is freed by the dispatch that runs it. */
  lemma {:induction false} OneShotState(s: Slot, n: nat)
    requires Occupied(s) && s.delay >= 0 && s.period == 0 && s.exec == 0
    ensures HandleN(s, n) == if n <= s.delay then s.(delay := s.delay - n) else s.(delay := -1, func := 0)
  {
    if n > 0 {
      OneShotState(s, n - 1);
    }
  }

  /** A task added with period 0 and delay `d` is called exactly once, in interrupt `d + 1`. */
  lemma OneShotCall(s: Slot, k: nat)
    requires Occupied(s) && s.delay >= 0 && s.period == 0 && s.exec == 0 && k >= 1
    ensures CalledAt(s, k) <==> k == s.delay + 1
  {
    OneShotState(s, k - 1);
  }

  // ------------------------------------------------------------- the table

  /** The global `Tasks[NT]` array, `cur_task`, and the log of slots whose function was called. */
  class Kernel {
    var tasks: array<Slot>
    var curTask: int
    var invoked: seq<nat>

    predicate Valid()
      reads this
    {
      tasks.Length == NT && 0 <= curTask <= NT
    }

    /** The zero-initialised globals: every slot free, `cur_task = NT`. */
    constructor()
      ensures Valid() && fresh(tasks) && curTask == NT && invoked == []
      ensures forall i :: 0 <= i < NT ==> tasks[i] == Slot(0, 0, 0, 0)
    {
      tasks := new Slot[NT](_ => Slot(0, 0, 0, 0));
      curTask := NT;
      invoked := [];
    }

    /** `Sched_Init`, table part: every slot marked free. */
    method Init()
      requires Valid()
      modifies tasks
      ensures forall i :: 0 <= i < NT ==> tasks[i] == old(tasks[i]).(func := 0) && !Occupied(tasks[i])
    {
      for x := 0 to NT
        invariant forall i :: 0 <= i < x ==> tasks[i] == old(tasks[i]).(func := 0)
        invariant forall i :: x <= i < NT ==> tasks[i] == old(tasks[i])
      {
        tasks[x] := tasks[x].(func := 0);
      }
    }

    /** `Sched_AddT(f, d, p)`: fill the first free slot and return its index, or -1. */
    method AddT(f: nat, d: int, p: int) returns (x: int)
      requires Valid()
      modifies tasks
      ensures x == FirstFree(old(tasks[..]))
      ensures x >= 0 ==> tasks[..] == old(tasks[..])[x := Slot(p, d, f, 0)]
      ensures x == -1 ==> tasks[..] == old(tasks[..])
    {
      for i := 0 to NT
        invariant forall j :: 0 <= j < i ==> Occupied(tasks[j])
      {
        if tasks[i].func == 0 {
          tasks[i] := Slot(p, d, f, 0);
          return i;
        }
      }
      return -1;
    }

    /** `Sched_Schedule`: one tick for every slot. */
    method Schedule()
      requires Valid()
      modifies tasks
      ensures forall i :: 0 <= i < NT ==> tasks[i] == TickSlot(old(tasks[i]))
    {
      for x := 0 to NT
        invariant forall i :: 0 <= i < x ==> tasks[i] == TickSlot(old(tasks[i]))
        invariant forall i :: x <= i < NT ==> tasks[i] == old(tasks[i])
      {
        if tasks[x].func != 0 {
          if tasks[x].delay != 0 {
            tasks[x] := tasks[x].(delay := tasks[x].delay - 1);
          } else {
            tasks[x] := tasks[x].(exec := tasks[x].exec + 1, delay := tasks[x].period - 1);
          }
        }
      }
    }

    /** `Sched_Dispatch`: run every ready slot below `cur_task` once, then free it if one-shot. */
    method Dispatch()
      requires Valid()
      modifies this, tasks
      ensures Valid() && tasks == old(tasks) && curTask == old(curTask)
      ensures forall i :: 0 <= i < NT ==> tasks[i] == if i < curTask then Fire(old(tasks[i])) else old(tasks[i])
      ensures invoked == old(invoked) + Due(old(tasks[..]), curTask)
    {
      var prevTask := curTask;
      var x := 0;
      while x < curTask
        invariant tasks == old(tasks) && curTask == prevTask == old(curTask) && Valid()
        invariant 0 <= x <= curTask
        invariant forall i :: 0 <= i < x ==> tasks[i] == Fire(old(tasks[i]))
        invariant forall i :: x <= i < NT ==> tasks[i] == old(tasks[i])
        invariant invoked == old(invoked) + Due(old(tasks[..]), x)
      {
        ghost var due := Due(old(tasks[..]), x + 1);
        assert due == Due(old(tasks[..]), x) + if Ready(old(tasks[x])) then [x] else [];
        if tasks[x].func != 0 && tasks[x].exec != 0 {
          tasks[x] := tasks[x].(exec := 0);
          curTask := x;
          invoked := invoked + [x];
          curTask := prevTask;
          if tasks[x].period == 0 {
            tasks[x] := tasks[x].(func := 0);
          }
        }
        x := x + 1;
      }
    }

    /** `int_handler(sig)`: on SIGALRM one schedule tick then a dispatch; any other signal is ignored. */
    method IntHandler(sig: int)
      requires Valid()
      modifies this, tasks
      ensures Valid() && tasks == old(tasks) && curTask == old(curTask)
      ensures sig != SIGALRM ==> tasks[..] == old(tasks[..]) && invoked == old(invoked)
      ensures sig == SIGALRM ==>
        (forall i :: 0 <= i < NT ==>
           tasks[i] == if i < curTask then Fire(TickSlot(old(tasks[i]))) else TickSlot(old(tasks[i])))
        && invoked == old(invoked) + Due(Tick(old(tasks[..])), curTask)
    {
      if sig != SIGALRM {
        return;
      }
      Schedule();
      ghost var ticked := tasks[..];
      Dispatch();
      assert ticked == Tick(old(tasks[..]));
    }
  }
}
