/** The agent's availability editor (Availability.js): one record held in a
    state cell, rewritten by the page's event handlers and posted as it is. */
module Availability {
  import opened Wrappers
  import opened TimeSlots

  datatype AvailabilityRecord = AvailabilityRecord(agentId: string, dayOfWeek: string, timeSlots: seq<TimeSlot>)

  /** The options of the day selector, in display order. */
  const Weekdays: seq<string> := ["Monday", "Tuesday", "Wednesday", "Thursday", "Friday", "Saturday", "Sunday"]

  /** A value the day selector can produce. */
  type Weekday = d: string | d in Weekdays witness "Monday"

  /** The slot the editor starts with and the one "+ Add Slot" appends. */
  const DefaultSlot := TimeSlot("", "", true)

  /** A `handleSlotChange(index, field, value)` call: the field the input is
      bound to together with the value it produced. */
  datatype SlotEdit = SetStartTime(time: string) | SetEndTime(time: string) | SetActive(checked: bool)

  /** The record's day is one the selector offers. */
  predicate DayIsWeekday(r: AvailabilityRecord) {
    r.dayOfWeek in Weekdays
  }

  /** The state cell's initial value. */
  function Initial(): (r: AvailabilityRecord)
    ensures r.agentId == "" && r.dayOfWeek == "Monday"
    ensures r.timeSlots == [TimeSlot("", "", true)]
    ensures DayIsWeekday(r)
  {
    AvailabilityRecord("", "Monday", [DefaultSlot])
  }

  /** The mount effect: `agentId` is taken from storage only when the stored
      value is present and non-empty; day and slots are kept. */
  function WithStoredAgentId(r: AvailabilityRecord, stored: Option<string>): (r': AvailabilityRecord)
    ensures r'.dayOfWeek == r.dayOfWeek && r'.timeSlots == r.timeSlots
    ensures stored.Some? && stored.value != "" ==> r'.agentId == stored.value
    ensures stored.None? || stored.value == "" ==> r'.agentId == r.agentId
  {
    if stored.Some? && stored.value != "" then r.(agentId := stored.value) else r
  }

  /** The day selector's `onChange`: only the day changes. */
  function WithDay(r: AvailabilityRecord, day: Weekday): (r': AvailabilityRecord)
    ensures r'.dayOfWeek == day && DayIsWeekday(r')
    ensures r'.agentId == r.agentId && r'.timeSlots == r.timeSlots
  {
    r.(dayOfWeek := day)
  }

  /** One field of one slot takes a new value. */
  function EditSlot(s: TimeSlot, edit: SlotEdit): (s': TimeSlot)
    ensures s'.startTime == (if edit.SetStartTime? then edit.time else s.startTime)
    ensures s'.endTime == (if edit.SetEndTime? then edit.time else s.endTime)
    ensures s'.isActive == (if edit.SetActive? then edit.checked else s.isActive)
  {
    match edit
    case SetStartTime(t) => s.(startTime := t)
    case SetEndTime(t) => s.(endTime := t)
    case SetActive(b) => s.(isActive := b)
  }

  /** `handleSlotChange`: the slot at `index` gets the edit, every other slot,
      the slot count, the agent and the day are kept. The source does not
      check the index; its callers pass the index of a rendered slot. */
  function WithSlotEdit(r: AvailabilityRecord, index: nat, edit: SlotEdit): (r': AvailabilityRecord)
    requires index < |r.timeSlots|
    ensures |r'.timeSlots| == |r.timeSlots|
    ensures r'.timeSlots[index] == EditSlot(r.timeSlots[index], edit)
    ensures forall j | 0 <= j < |r.timeSlots| && j != index :: r'.timeSlots[j] == r.timeSlots[j]
    ensures r'.agentId == r.agentId && r'.dayOfWeek == r.dayOfWeek
  {
    r.(timeSlots := r.timeSlots[index := EditSlot(r.timeSlots[index], edit)])
  }

  /** `addSlot`: one default slot appended after the existing ones. */
  function WithAddedSlot(r: AvailabilityRecord): (r': AvailabilityRecord)
    ensures |r'.timeSlots| == |r.timeSlots| + 1
    ensures r'.timeSlots[..|r.timeSlots|] == r.timeSlots
    ensures r'.timeSlots[|r.timeSlots|] == DefaultSlot
    ensures r'.agentId == r.agentId && r'.dayOfWeek == r.dayOfWeek
  {
    r.(timeSlots := r.timeSlots + [DefaultSlot])
  }

  /** The events the page reacts to, in the order the user causes them. */
  datatype Event =
    | AgentIdLoaded(stored: Option<string>)
    | DayChanged(day: Weekday)
    | SlotChanged(index: nat, edit: SlotEdit)
    | SlotAdded

  /** The state after one event. A slot change at an index with no slot
      throws a TypeError inside the handler before the state is set, so the
      state stays as it was. */
  function Step(r: AvailabilityRecord, e: Event): (r': AvailabilityRecord)
    ensures |r'.timeSlots| == |r.timeSlots| + (if e.SlotAdded? then 1 else 0)
    ensures e.SlotChanged? && e.index >= |r.timeSlots| ==> r' == r
    ensures !e.AgentIdLoaded? ==> r'.agentId == r.agentId
    ensures r'.dayOfWeek == (if e.DayChanged? then e.day else r.dayOfWeek)
  {
    match e
    case AgentIdLoaded(stored) => WithStoredAgentId(r, stored)
    case DayChanged(day) => WithDay(r, day)
    case SlotChanged(i, edit) => if i < |r.timeSlots| then WithSlotEdit(r, i, edit) else r
    case SlotAdded => WithAddedSlot(r)
  }

  /** The state after a sequence of events. */
  function Run(r: AvailabilityRecord, events: seq<Event>): AvailabilityRecord
    decreases |events|
  {
    if events == [] then r else Run(Step(r, events[0]), events[1..])
  }

  /** How many of the events add a slot. */
  function AddedSlots(events: seq<Event>): nat
    decreases |events|
  {
    if events == [] then 0 else (if events[0].SlotAdded? then 1 else 0) + AddedSlots(events[1..])
  }

  /** Slots are never removed: after any events the slot count is the
      starting count plus the number of "+ Add Slot" clicks. */
  lemma {:induction false} RunSlotCount(r: AvailabilityRecord, events: seq<Event>)
    ensures |Run(r, events).timeSlots| == |r.timeSlots| + AddedSlots(events)
    decreases |events|
  {
    if events != [] {
      RunSlotCount(Step(r, events[0]), events[1..]);
    }
  }

  /** The day is always one the selector offers. */
  lemma {:induction false} RunKeepsWeekday(r: AvailabilityRecord, events: seq<Event>)
    requires DayIsWeekday(r)
    ensures DayIsWeekday(Run(r, events))
    decreases |events|
  {
    if events != [] {
      RunKeepsWeekday(Step(r, events[0]), events[1..]);
    }
  }

  /** A slot that no event targets keeps its position and its value: other
      events edit other slots, append after it, or leave the slots alone. */
  lemma {:induction false} RunKeepsUntouchedSlot(r: AvailabilityRecord, events: seq<Event>, k: nat)
    requires k < |r.timeSlots|
    requires forall j | 0 <= j < |events| :: !(events[j].SlotChanged? && events[j].index == k)
    ensures k < |Run(r, events).timeSlots|
    ensures Run(r, events).timeSlots[k] == r.timeSlots[k]
    decreases |events|
  {
    if events != [] {
      var r' := Step(r, events[0]);
      assert r'.timeSlots[k] == r.timeSlots[k];
      RunKeepsUntouchedSlot(r', events[1..], k);
    }
  }

  /** Whatever the user does, the editor holds at least one slot and a day
      from the selector. */
  lemma SessionInvariant(events: seq<Event>)
    ensures |Run(Initial(), events).timeSlots| >= 1
    ensures DayIsWeekday(Run(Initial(), events))
  {
    RunSlotCount(Initial(), events);
    RunKeepsWeekday(Initial(), events);
  }

  /** The agent id changes only through the mount effect: without an
      `AgentIdLoaded` event it keeps its starting value. */
  lemma {:induction false} RunKeepsAgentId(r: AvailabilityRecord, events: seq<Event>)
    requires forall j | 0 <= j < |events| :: !events[j].AgentIdLoaded?
    ensures Run(r, events).agentId == r.agentId
    decreases |events|
  {
    if events != [] {
      RunKeepsAgentId(Step(r, events[0]), events[1..]);
    }
  }

  /** The page's state cell. Each handler replaces the record with a new one. */
  class AvailabilityEditor {
    var availability: AvailabilityRecord

    ghost predicate Valid()
      reads this
    {
      DayIsWeekday(availability)
    }

    constructor()
      ensures availability == Initial() && Valid()
    {
      availability := Initial();
    }

    /** The mount effect, given the value stored under "agentId" (null when
        absent). */
    method LoadAgentId(stored: Option<string>)
      requires Valid()
      modifies this
      ensures Valid()
      ensures availability == Step(old(availability), AgentIdLoaded(stored))
    {
      availability := WithStoredAgentId(availability, stored);
    }

    /** The day selector's `onChange`. */
    method ChangeDay(day: Weekday)
      requires Valid()
      modifies this
      ensures Valid()
      ensures availability == Step(old(availability), DayChanged(day))
    {
      availability := WithDay(availability, day);
    }

    /** `handleSlotChange` for a rendered slot. */
    method HandleSlotChange(index: nat, edit: SlotEdit)
      requires Valid() && index < |availability.timeSlots|
      modifies this
      ensures Valid()
      ensures availability == Step(old(availability), SlotChanged(index, edit))
    {
      availability := WithSlotEdit(availability, index, edit);
    }

    /** `addSlot`. */
    method AddSlot()
      requires Valid()
      modifies this
      ensures Valid()
      ensures availability == Step(old(availability), SlotAdded)
    {
      availability := WithAddedSlot(availability);
    }

    /** `submit`: the request body is the record exactly as held, with no
        validation; the record is not changed whatever the outcome. */
    method Submit() returns (body: AvailabilityRecord)
      ensures body == availability
    {
      body := availability;
    }
  }
}
