/** The event group of event_groups.c: its fields, and its functions as they
    update them, each shown to be its operation of EventGroupSpec. */
module EventGroups {
  import opened EventBits
  import opened ListSpec
  import opened EventGroupSpec

  class EventGroup {
    var bits: Bits                 // uxEventBits
    var waiting: seq<Task>         // xTasksWaitingForBits
    var value: map<Task, Bits>     // the event item of each task
    var calls: map<Task, Call>     // the arguments of the calls that blocked

    ghost function State(): Group
      reads this
    {
      Group(bits, waiting, value, calls)
    }

    ghost predicate Valid()
      reads this
    {
      Inv(State())
    }

    constructor (itemValues: map<Task, Bits>)
      ensures Valid() && State() == Group(0, [], itemValues, map[])
    {
      bits, waiting, value, calls := 0, [], itemValues, map[];
      StartsEmpty(itemValues);
    }

    /** vTaskRemoveFromUnorderedEventList, for the task at place k of the list. */
    method RemoveFromUnorderedEventList(k: nat, itemValue: Bits)
      requires k < |waiting|
      modifies `waiting, `value
      ensures waiting == Removed(old(waiting), k) && value == old(value)[old(waiting)[k] := InUse(itemValue)]
    {
      value := value[waiting[k] := InUse(itemValue)];
      waiting := Removed(waiting, k);
    }

    /** vTaskPlaceOnUnorderedEventList. */
    method PlaceOnUnorderedEventList(t: Task, itemValue: Bits)
      modifies `waiting, `value
      ensures waiting == old(waiting) + [t] && value == old(value)[t := InUse(itemValue)]
    {
      value := value[t := InUse(itemValue)];
      waiting := waiting + [t];
    }

    /** The loop of xEventGroupSetBits: `i` is the place of pxListItem.  Taking an
        item away leaves the next one in its place. */
    method WakeMatching() returns (bitsToClear: Bits)
      requires Distinct(waiting) && forall t :: t in waiting ==> t in value
      modifies `waiting, `value
      ensures forall t :: t in old(waiting) ==> t in old(value)
      ensures waiting == Remaining(old(waiting), old(value), bits)
      ensures value == HandedOut(old(waiting), old(value), bits)
      ensures bitsToClear == ToClear(old(waiting), old(value), bits)
    {
      hide Matches, ClearMask, With, EventsOf, InUse, Progress;
      bitsToClear := 0;
      var i := 0;
      ghost var done: seq<Task> := [];
      Starts(waiting, value, bits);
      while i < |waiting|
        invariant i <= |waiting|
        invariant Progress(old(waiting), old(value), bits, done, waiting[..i], waiting[i..], value, bitsToClear)
        decreases |waiting| - i
      {
        ghost var kept, rest := waiting[..i], waiting[i..];
        var t := waiting[i];
        Advances(old(waiting), old(value), bits, done, kept, rest, value, bitsToClear);
        var item := value[t];
        if Matches(bits, item) {
          bitsToClear := With(bitsToClear, ClearMask(item));
          RemoveFromUnorderedEventList(i, With(bits, UNBLOCKED));
          assert waiting[..i] == kept;
        } else {
          i := i + 1;
          assert waiting[..i] == kept + [t];
        }
        assert waiting[i..] == rest[1..];
        done := done + [t];
      }
      Ends(old(waiting), old(value), bits, done, waiting[..i], waiting[i..], value, bitsToClear);
      assert waiting[..i] == waiting;
    }

    /** xEventGroupSetBits. */
    method SetBits(bitsToSet: Bits) returns (result: Bits)
      requires Valid() && IsEvents(bitsToSet)
      modifies `bits, `waiting, `value
      ensures forall t :: t in old(waiting) ==> t in old(value)
      ensures Valid() && State() == EventGroupSpec.SetBits(old(State()), bitsToSet) && result == bits
    {
      hide Met, Encoded, With, Without, IsEvents, Call.Valid, TaskOk;
      Known(State());
      SetBitsKeepsInv(State(), bitsToSet);
      bits := With(bits, bitsToSet);
      var bitsToClear := WakeMatching();
      bits := Without(bits, bitsToClear);
      result := bits;
    }

    /** xEventGroupSync up to where it returns or blocks. */
    method Sync(t: Task, bitsToSet: Bits, wants: Bits, ticksToWait: TickType) returns (outcome: Outcome)
      requires Valid() && t !in calls && IsEvents(bitsToSet) && Call(wants, true, true).Valid()
      modifies this
      ensures forall u :: u in old(waiting) ==> u in old(value)
      ensures Valid()
      ensures (State(), outcome) == EventGroupSpec.Sync(old(State()), t, bitsToSet, wants, ticksToWait != 0)
    {
      hide Inv, Covers, With, Without, IsEvents, Call.Valid, EventGroupSpec.SetBits, InUse, ControlBits;
      SyncKeepsInv(State(), t, bitsToSet, wants, ticksToWait != 0);
      var original := bits;
      var now := SetBits(bitsToSet);
      if Covers(With(original, bitsToSet), wants) {
        outcome := Returns(With(original, bitsToSet));
        bits := Without(bits, wants);
      } else if ticksToWait != 0 {
        SyncControlBits(wants);
        PlaceOnUnorderedEventList(t, With(With(wants, CLEAR_ON_EXIT), WAIT_FOR_ALL));
        calls := calls[t := Call(wants, true, true)];
        outcome := Blocks;
      } else {
        outcome := Returns(bits);
      }
    }

    /** xEventGroupWaitBits up to where it returns or blocks. */
    method WaitBits(t: Task, wants: Bits, clearOnExit: bool, waitForAll: bool, ticksToWait: TickType)
      returns (outcome: Outcome)
      requires Valid() && t !in calls && Call(wants, clearOnExit, waitForAll).Valid()
      modifies this
      ensures Valid()
      ensures (State(), outcome) ==
        EventGroupSpec.WaitBits(old(State()), t, Call(wants, clearOnExit, waitForAll), ticksToWait != 0)
    {
      hide Inv, Met, With, Without, IsEvents, Call.Valid, InUse;
      var call := Call(wants, clearOnExit, waitForAll);
      WaitBitsKeepsInv(State(), t, call, ticksToWait != 0);
      if Met(bits, call) {
        outcome := Returns(bits);
        if clearOnExit {
          bits := Without(bits, wants);
        }
      } else if ticksToWait == 0 {
        outcome := Returns(bits);
      } else {
        var controlBits: Bits := 0;
        if clearOnExit {
          controlBits := With(controlBits, CLEAR_ON_EXIT);
        }
        if waitForAll {
          controlBits := With(controlBits, WAIT_FOR_ALL);
        }
        PlaceOnUnorderedEventList(t, With(wants, controlBits));
        calls := calls[t := call];
        outcome := Blocks;
      }
    }

    /** xEventGroupClearBits. */
    method ClearBits(bitsToClear: Bits) returns (before: Bits)
      requires Valid() && IsEvents(bitsToClear)
      modifies `bits
      ensures Valid() && State() == EventGroupSpec.ClearBits(old(State()), bitsToClear) && before == old(bits)
    {
      hide Inv, Without, IsEvents;
      InvWithBits(State(), bitsToClear);
      before := bits;
      bits := Without(bits, bitsToClear);
    }

    /** The kernel takes a task off the list whose block time is over. */
    method Expire(t: Task)
      requires Valid() && t in waiting
      modifies `waiting
      ensures Valid() && State() == EventGroupSpec.Expire(old(State()), t)
    {
      hide Inv;
      ExpireKeepsInv(State(), t);
      waiting := Removed(waiting, Index(waiting, t));
    }

    /** The end of a call that blocked, when its task runs again. */
    method Resume(t: Task, normalValue: Bits) returns (result: Bits)
      requires Valid() && t in calls && t !in waiting
      modifies `bits, `value, `calls
      ensures t in old(value)
      ensures Valid() && (State(), result) == EventGroupSpec.Resume(old(State()), t, normalValue)
    {
      hide Inv, Met, Without, EventsOf, Shares;
      ResumeSees(State(), t, normalValue);
      ResumeKeepsInv(State(), t, normalValue);
      var call := calls[t];
      result := value[t];
      value := value[t := normalValue];
      calls := calls - {t};
      if !Shares(result, UNBLOCKED) {
        result := bits;
        if Met(result, call) {
          if call.clear {
            bits := Without(bits, call.wants);
          }
        }
      }
      result := EventsOf(result);
    }
  }

  /** Between two turns of the loop of xEventGroupSetBits: `done` has been
      looked at, of which `kept` stays, and `todo` is still to come. */
  ghost predicate Progress(start: seq<Task>, startValue: map<Task, Bits>, bits: Bits, done: seq<Task>,
                           kept: seq<Task>, todo: seq<Task>, value: map<Task, Bits>, toClear: Bits) {
    && start == done + todo && Distinct(todo)
    && (forall t :: t in done ==> t in startValue)
    && (forall t :: t in todo ==> t !in done && t in startValue && t in value && value[t] == startValue[t])
    && kept == Remaining(done, startValue, bits)
    && toClear == ToClear(done, startValue, bits)
    && value == HandedOut(done, startValue, bits)
  }

  lemma Starts(waiting: seq<Task>, value: map<Task, Bits>, bits: Bits)
    requires Distinct(waiting) && forall t :: t in waiting ==> t in value
    ensures Progress(waiting, value, bits, [], waiting[..0], waiting[0..], value, 0)
  {
    assert waiting[0..] == waiting && [] + waiting == waiting;
  }

  lemma Advances(start: seq<Task>, startValue: map<Task, Bits>, bits: Bits, done: seq<Task>,
                 kept: seq<Task>, todo: seq<Task>, value: map<Task, Bits>, toClear: Bits)
    requires Progress(start, startValue, bits, done, kept, todo, value, toClear) && todo != []
    ensures todo[0] in value
    ensures var t := todo[0];
      if Matches(bits, value[t]) then
        Progress(start, startValue, bits, done + [t], kept, todo[1..], value[t := Handed(bits)],
                 With(toClear, ClearMask(value[t])))
      else
        Progress(start, startValue, bits, done + [t], kept + [t], todo[1..], value, toClear)
  {
    hide Matches, ClearMask, With, Handed;
    var t := todo[0];
    TailDistinct(todo);
    DoneGrows(done, startValue, bits, t);
    HandedGrows(done, startValue, bits, t);
    assert done + [t] + todo[1..] == done + todo;
  }

  lemma Ends(start: seq<Task>, startValue: map<Task, Bits>, bits: Bits, done: seq<Task>,
             kept: seq<Task>, todo: seq<Task>, value: map<Task, Bits>, toClear: Bits)
    requires Progress(start, startValue, bits, done, kept, todo, value, toClear) && todo == []
    ensures forall t :: t in start ==> t in startValue
    ensures kept == Remaining(start, startValue, bits) && toClear == ToClear(start, startValue, bits)
    ensures value == HandedOut(start, startValue, bits)
  {
    assert start == done;
  }

  lemma SyncControlBits(wants: Bits)
    ensures With(With(wants, CLEAR_ON_EXIT), WAIT_FOR_ALL) == With(wants, ControlBits(true, true))
  {
    hide With;
    WithZero(CLEAR_ON_EXIT);
    WithAssociates(wants, CLEAR_ON_EXIT, WAIT_FOR_ALL);
  }

  lemma {:induction false} DoneGrows(done: seq<Task>, value: map<Task, Bits>, bits: Bits, t: Task)
    requires t in value && forall u :: u in done ==> u in value
    ensures Remaining(done + [t], value, bits) ==
            Remaining(done, value, bits) + if Matches(bits, value[t]) then [] else [t]
    ensures ToClear(done + [t], value, bits) ==
            if Matches(bits, value[t]) then With(ToClear(done, value, bits), ClearMask(value[t]))
            else ToClear(done, value, bits)
  {
    hide Matches, ClearMask, With;
    if done == [] {
      assert [] + [t] == [t];
      WithZero(ClearMask(value[t]));
    } else {
      assert (done + [t])[1..] == done[1..] + [t];
      DoneGrows(done[1..], value, bits, t);
      if Matches(bits, value[t]) && Matches(bits, value[done[0]]) {
        WithAssociates(ClearMask(value[done[0]]), ToClear(done[1..], value, bits), ClearMask(value[t]));
      }
    }
  }

  lemma HandedGrows(done: seq<Task>, value: map<Task, Bits>, bits: Bits, t: Task)
    requires t in value && forall u :: u in done ==> u in value
    ensures HandedOut(done + [t], value, bits) ==
            if Matches(bits, value[t]) then HandedOut(done, value, bits)[t := Handed(bits)]
            else HandedOut(done, value, bits)
  {
    hide Matches, Handed;
  }
}
