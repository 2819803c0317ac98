/** The exception vector of exception_vector.hpp: 32 slots, of which 22 are
    implemented, and the two folds over them, as loops and as they are unrolled. */
module ExceptionVectors {
  import opened Wrappers

  const RESET := 1
  const NMI := 2
  const HARDFAULT := 3
  const SVCALL := 11
  const PENDSV := 14
  const EXTI_00 := 16
  const SLOTS := 32

  const MAX_PRIORITY := 127
  const THREAD_MODE_PRIORITY := 4

  type Number = n: nat | n < SLOTS

  datatype Slot = Slot(kind: Number, priority: int, pending: bool, enabled: bool, active: bool) {
    predicate Candidate() {
      pending && enabled
    }
  }

  predicate Implemented(n: nat) {
    1 <= n <= 3 || n == SVCALL || (PENDSV <= n < SLOTS)
  }

  /** From number k on, e is the next that is implemented. */
  predicate Follows(k: nat, e: Number) {
    k == e || (k == 0 && e == RESET) || (k == HARDFAULT + 1 && e == SVCALL) || (k == SVCALL + 1 && e == PENDSV)
  }

  /** The priority a slot can have: three are fixed, a reserved slot reports the
      largest there is, and the others hold two bits. */
  predicate PriorityOk(n: nat, priority: int) {
    if n == RESET then priority == -3
    else if n == NMI then priority == -2
    else if n == HARDFAULT then priority == -1
    else if Implemented(n) then 0 <= priority < 4
    else priority == MAX_PRIORITY
  }

  predicate SlotOk(n: nat, s: Slot) {
    && s.kind == (if Implemented(n) then n else 0)
    && PriorityOk(n, s.priority)
    && (n < EXTI_00 ==> s.enabled)  // only external interrupts can be disabled
  }

  ghost predicate Wellformed(slots: seq<Slot>) {
    |slots| == SLOTS && forall n :: 0 <= n < SLOTS ==> SlotOk(n, slots[n])
  }

  // ----------------------------------------------------------- most urgent

  /** Group priority first, then the exception number. */
  predicate Precedes(slots: seq<Slot>, n: nat, m: nat)
    requires n < |slots| && m < |slots|
  {
    slots[n].priority < slots[m].priority || (slots[n].priority == slots[m].priority && n < m)
  }

  /** The most urgent of the implemented exceptions below number k that are
      pending and enabled. */
  ghost predicate IsTop(slots: seq<Slot>, k: nat, top: Option<Number>)
    requires |slots| == SLOTS && k <= SLOTS
  {
    match top
    case None => forall m :: 0 <= m < k && Implemented(m) ==> !slots[m].Candidate()
    case Some(n) =>
      && n < k && Implemented(n) && slots[n].Candidate()
      && forall m :: 0 <= m < k && Implemented(m) && slots[m].Candidate() && m != n ==> Precedes(slots, n, m)
  }

  lemma TopIsUnique(slots: seq<Slot>, a: Option<Number>, b: Option<Number>)
    requires |slots| == SLOTS && IsTop(slots, SLOTS, a) && IsTop(slots, SLOTS, b)
    ensures a == b
  {
  }

  /** What the loop over all 32 slots keeps as its choice among the first n. */
  ghost predicate IsLoopTop(slots: seq<Slot>, n: nat, top: Option<Number>)
    requires |slots| == SLOTS && n <= SLOTS
  {
    match top
    case None => forall m :: 0 <= m < n ==> !slots[m].Candidate()
    case Some(t) =>
      && t < n && slots[t].Candidate()
      && forall m :: 0 <= m < n && slots[m].Candidate() && m != t ==> LoopPrecedes(slots, t, m)
  }

  predicate LoopPrecedes(slots: seq<Slot>, t: nat, m: nat)
    requires t < |slots| && m < |slots|
  {
    slots[t].priority < slots[m].priority ||
    (slots[t].priority == slots[m].priority &&
     (slots[t].kind < slots[m].kind || (slots[t].kind == slots[m].kind && t < m)))
  }

  /** The two forms choose alike just when an implemented exception is pending
      and enabled, or no reserved slot is pending. */
  lemma FormsAgree(slots: seq<Slot>, unrolled: Option<Number>, loop: Option<Number>)
    requires Wellformed(slots) && IsTop(slots, SLOTS, unrolled) && IsLoopTop(slots, SLOTS, loop)
    ensures unrolled == loop <==>
            (exists n :: 0 <= n < SLOTS && Implemented(n) && slots[n].Candidate())
            || (forall n :: 0 <= n < SLOTS && !Implemented(n) ==> !slots[n].pending)
  {
  }

  // ------------------------------------------------------ execution priority

  /** The least priority number of the active exceptions in slots lo to hi - 1,
      or that of thread mode. */
  ghost predicate IsExecutionPriority(slots: seq<Slot>, lo: nat, hi: nat, priority: int)
    requires |slots| == SLOTS && hi <= SLOTS
  {
    && priority <= THREAD_MODE_PRIORITY
    && (forall n :: lo <= n < hi && slots[n].active ==> priority <= slots[n].priority)
    && (priority == THREAD_MODE_PRIORITY
        || exists n :: lo <= n < hi && slots[n].active && slots[n].priority == priority)
  }

  /** What current_execution_priority gives: PRIMASK replaces what is active. */
  ghost predicate IsCurrentPriority(slots: seq<Slot>, lo: nat, primask: bool, priority: int)
    requires |slots| == SLOTS
  {
    if primask then priority == 0 else IsExecutionPriority(slots, lo, SLOTS, priority)
  }

  /** The unrolled form starts at HardFault and so leaves out NMI: it equals the
      loop just when NMI is not active. */
  lemma PriorityFormsAgree(slots: seq<Slot>, unrolled: int, loop: int)
    requires Wellformed(slots)
    requires IsExecutionPriority(slots, HARDFAULT, SLOTS, unrolled)
    requires IsExecutionPriority(slots, NMI, SLOTS, loop)
    ensures unrolled == loop <==> !slots[NMI].active
  {
  }

  lemma {:induction false} LeastExists(slots: seq<Slot>, lo: nat, hi: nat) returns (priority: int)
    requires |slots| == SLOTS && lo <= hi <= SLOTS
    ensures IsExecutionPriority(slots, lo, hi, priority)
  {
    if hi == lo {
      priority := THREAD_MODE_PRIORITY;
    } else {
      priority := LeastExists(slots, lo, hi - 1);
      if slots[hi - 1].active && slots[hi - 1].priority < priority {
        priority := slots[hi - 1].priority;
      }
    }
  }

  // ------------------------------------------------------------------- class

  class ExceptionVector {
    var slots: seq<Slot>

    ghost predicate Valid()
      reads this
    {
      Wellformed(slots)
    }

    constructor (slots: seq<Slot>)
      requires Wellformed(slots)
      ensures Valid() && this.slots == slots
    {
      this.slots := slots;
    }

    /** One step of the unrolled search, after the exceptions below k. */
    method Sort(e: Number, number: Number, priority: int, ghost k: nat) returns (number': Number, priority': int)
      requires Valid() && Implemented(e) && Follows(k, e)
      requires IsTop(slots, k, if number == 0 then None else Some(number))
      requires number != 0 ==> priority == slots[number].priority
      ensures IsTop(slots, e + 1, if number' == 0 then None else Some(number'))
      ensures number' != 0 ==> priority' == slots[number'].priority
    {
      number', priority' := number, priority;
      var s := slots[e];
      assert SlotOk(e, s);
      if s.pending && s.enabled {
        if number == 0 || s.priority < priority {
          number', priority' := s.kind, s.priority;
        } else if s.priority == priority {
          if s.kind < number {
            number', priority' := s.kind, s.priority;
          }
        }
      }
    }

    /** top_pending, unrolled: the number of the slot, if there is one. */
    method TopPending() returns (top: Option<Number>)
      requires Valid()
      ensures IsTop(slots, SLOTS, top)
    {
      hide IsTop, SlotOk;
      NothingOfNone(slots);
      var n: Number, p := 0, MAX_PRIORITY;
      n, p := Sort(1, n, p, 0);
      n, p := Sort(2, n, p, 2);
      n, p := Sort(3, n, p, 3);
      n, p := Sort(11, n, p, 4);
      n, p := Sort(14, n, p, 12);
      n, p := Sort(15, n, p, 15);
      n, p := Sort(16, n, p, 16);
      n, p := Sort(17, n, p, 17);
      n, p := Sort(18, n, p, 18);
      n, p := Sort(19, n, p, 19);
      top := TopPendingRest(n, p);
    }

    method TopPendingRest(before: Number, priority: int) returns (top: Option<Number>)
      requires Valid() && IsTop(slots, 20, if before == 0 then None else Some(before))
      requires before != 0 ==> priority == slots[before].priority
      ensures IsTop(slots, SLOTS, top)
    {
      hide IsTop, SlotOk;
      var n, p := before, priority;
      n, p := Sort(20, n, p, 20);
      n, p := Sort(21, n, p, 21);
      n, p := Sort(22, n, p, 22);
      n, p := Sort(23, n, p, 23);
      n, p := Sort(24, n, p, 24);
      n, p := Sort(25, n, p, 25);
      n, p := Sort(26, n, p, 26);
      n, p := Sort(27, n, p, 27);
      n, p := Sort(28, n, p, 28);
      n, p := Sort(29, n, p, 29);
      n, p := Sort(30, n, p, 30);
      n, p := Sort(31, n, p, 31);
      top := if n == 0 then None else Some(n);
    }

    /** top_pending as the loop that the unrolled form stands for. */
    method TopPendingByLoop() returns (top: Option<Number>)
      requires Valid()
      ensures IsLoopTop(slots, SLOTS, top)
    {
      top := None;
      for i := 0 to SLOTS
        invariant IsLoopTop(slots, i, top)
      {
        if !slots[i].pending {
          continue;
        }
        if !slots[i].enabled {
          continue;
        }
        if top == None || slots[i].priority < slots[top.value].priority {
          top := Some(i);
        } else if slots[i].priority == slots[top.value].priority {
          if slots[i].kind < slots[top.value].kind {
            top := Some(i);
          }
        }
      }
    }

    /** One step of the unrolled search, after the active ones in lo to k - 1. */
    method SortMax(e: Number, priority: int, ghost k: nat, ghost lo: nat) returns (priority': int)
      requires Valid() && lo <= k && Follows(k, e)
      requires IsExecutionPriority(slots, lo, k, priority)
      ensures IsExecutionPriority(slots, lo, e + 1, priority')
    {
      assert forall n :: 0 <= n < SLOTS ==> SlotOk(n, slots[n]);
      priority' := priority;
      if slots[e].active && slots[e].priority < priority {
        priority' := slots[e].priority;
      }
    }

    method UnrolledSearch() returns (priority: int)
      requires Valid()
      ensures IsExecutionPriority(slots, HARDFAULT, SLOTS, priority)
    {
      hide IsExecutionPriority, SlotOk;
      priority := THREAD_MODE_PRIORITY;
      PriorityOfNone(slots, HARDFAULT);
      priority := SortMax(3, priority, 3, HARDFAULT);
      priority := SortMax(11, priority, 4, HARDFAULT);
      priority := SortMax(14, priority, 12, HARDFAULT);
      priority := SortMax(15, priority, 15, HARDFAULT);
      priority := SortMax(16, priority, 16, HARDFAULT);
      priority := SortMax(17, priority, 17, HARDFAULT);
      priority := SortMax(18, priority, 18, HARDFAULT);
      priority := SortMax(19, priority, 19, HARDFAULT);
      priority := SortMax(20, priority, 20, HARDFAULT);
      priority := SortMax(21, priority, 21, HARDFAULT);
      priority := SortMax(22, priority, 22, HARDFAULT);
      priority := SortMax(23, priority, 23, HARDFAULT);
      priority := UnrolledSearchRest(priority);
    }

    method UnrolledSearchRest(before: int) returns (priority: int)
      requires Valid() && IsExecutionPriority(slots, HARDFAULT, 24, before)
      ensures IsExecutionPriority(slots, HARDFAULT, SLOTS, priority)
    {
      hide IsExecutionPriority, SlotOk;
      priority := before;
      priority := SortMax(24, priority, 24, HARDFAULT);
      priority := SortMax(25, priority, 25, HARDFAULT);
      priority := SortMax(26, priority, 26, HARDFAULT);
      priority := SortMax(27, priority, 27, HARDFAULT);
      priority := SortMax(28, priority, 28, HARDFAULT);
      priority := SortMax(29, priority, 29, HARDFAULT);
      priority := SortMax(30, priority, 30, HARDFAULT);
      priority := SortMax(31, priority, 31, HARDFAULT);
    }

    /** current_execution_priority, unrolled. */
    method CurrentExecutionPriority(primask: bool) returns (priority: int)
      requires Valid()
      ensures IsCurrentPriority(slots, HARDFAULT, primask, priority)
    {
      hide IsExecutionPriority, SlotOk;
      priority := THREAD_MODE_PRIORITY;
      if primask {
        priority := 0;
      } else {
        priority := UnrolledSearch();
        AtMostThread(slots, HARDFAULT, priority);
      }
      priority := if priority < THREAD_MODE_PRIORITY then priority else THREAD_MODE_PRIORITY;
    }

    method CurrentExecutionPriorityByLoop(primask: bool) returns (priority: int)
      requires Valid()
      ensures IsCurrentPriority(slots, NMI, primask, priority)
    {
      priority := THREAD_MODE_PRIORITY;
      if primask {
        priority := 0;
      } else {
        for i := NMI to SLOTS
          invariant IsExecutionPriority(slots, NMI, i, priority)
        {
          if !slots[i].active {
            continue;
          }
          if slots[i].priority < priority {
            priority := slots[i].priority;
          }
        }
      }
      priority := if priority < THREAD_MODE_PRIORITY then priority else THREAD_MODE_PRIORITY;
    }
  }

  lemma NothingOfNone(slots: seq<Slot>)
    requires |slots| == SLOTS
    ensures IsTop(slots, 0, None)
  {
  }

  lemma PriorityOfNone(slots: seq<Slot>, lo: nat)
    requires |slots| == SLOTS && lo <= SLOTS
    ensures IsExecutionPriority(slots, lo, lo, THREAD_MODE_PRIORITY)
  {
  }

  lemma AtMostThread(slots: seq<Slot>, lo: nat, priority: int)
    requires |slots| == SLOTS && IsExecutionPriority(slots, lo, SLOTS, priority)
    ensures priority <= THREAD_MODE_PRIORITY
  {
  }
}
