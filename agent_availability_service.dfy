/** The backend's availability service (AgentAvailabilityService.java) over
    the `agent_availabilities` collection. The collection is a value of type
    `Table`; the queries the repository derives from its method names are
    functions over it; the clock is read through parameters. */
module AgentAvailabilityService {
  import opened Wrappers
  import opened TimeSlots
  import Seqs

  /** A `LocalDateTime.now()` reading. */
  type Time = int

  /** A document of the collection. `id` is null until the first save;
      `createdAt` and `updatedAt` are null until set. */
  datatype AgentAvailability = AgentAvailability(
    id: Option<nat>,
    agentId: string,
    dayOfWeek: string,
    timeSlots: seq<TimeSlot>,
    createdAt: Option<Time>,
    updatedAt: Option<Time>)

  /** The collection: its documents in insertion order, and the next id the
      store issues (ids are never reused). */
  datatype Table = Table(documents: seq<AgentAvailability>, nextId: nat)

  /** Every stored document has an id, below `nextId`, and no two share one. */
  predicate WellFormed(t: Table) {
    && (forall i | 0 <= i < |t.documents| :: t.documents[i].id.Some? && t.documents[i].id.value < t.nextId)
    && (forall i, j | 0 <= i < j < |t.documents| :: t.documents[i].id != t.documents[j].id)
  }

  predicate SameKey(a: AgentAvailability, b: AgentAvailability) {
    a.agentId == b.agentId && a.dayOfWeek == b.dayOfWeek
  }

  /** At most one document per `(agentId, dayOfWeek)`. */
  predicate KeysUnique(docs: seq<AgentAvailability>) {
    forall i, j | 0 <= i < j < |docs| :: !SameKey(docs[i], docs[j])
  }

  function HasKey(agentId: string, dayOfWeek: string): AgentAvailability -> bool {
    (d: AgentAvailability) => d.agentId == agentId && d.dayOfWeek == dayOfWeek
  }

  function HasId(id: nat): AgentAvailability -> bool {
    (d: AgentAvailability) => d.id == Some(id)
  }

  /** `findByAgentIdAndDayOfWeek`: the stored document with this key, or null
      when there is none. */
  function FindByAgentIdAndDayOfWeek(t: Table, agentId: string, dayOfWeek: string): (r: Option<AgentAvailability>)
    ensures r.None? <==> forall j | 0 <= j < |t.documents| :: !(t.documents[j].agentId == agentId && t.documents[j].dayOfWeek == dayOfWeek)
    ensures r.Some? ==> r.value in t.documents && r.value.agentId == agentId && r.value.dayOfWeek == dayOfWeek
  {
    match Seqs.FirstIndex(t.documents, HasKey(agentId, dayOfWeek))
    case Some(i) => Some(t.documents[i])
    case None => None
  }

  /** `findByAgentId`: the stored documents of this agent, in stored order. */
  function FindByAgentId(t: Table, agentId: string): (r: seq<AgentAvailability>)
    ensures forall d :: multiset(r)[d] == if d.agentId == agentId then multiset(t.documents)[d] else 0
  {
    Seqs.Filter(t.documents, (d: AgentAvailability) => d.agentId == agentId)
  }

  /** `save`: a document without an id is inserted under a newly issued id; a
      document with an id replaces the stored document with that id, or is
      inserted when there is none. The saved document is returned. */
  function Save(t: Table, e: AgentAvailability): (r: (Table, AgentAvailability))
    requires WellFormed(t)
    ensures WellFormed(r.0)
    ensures e.id.None? ==> r.1 == e.(id := Some(t.nextId)) && r.0 == Table(t.documents + [r.1], t.nextId + 1)
    ensures e.id.Some? ==> r.1 == e
    ensures forall k | 0 <= k < |t.documents| && t.documents[k].id == e.id :: r.0 == Table(t.documents[k := e], t.nextId)
    ensures e.id.Some? && (forall k | 0 <= k < |t.documents| :: t.documents[k].id != e.id) ==>
      && r.0.documents == t.documents + [e]
      && r.0.nextId == if e.id.value < t.nextId then t.nextId else e.id.value + 1
    ensures r.1 in r.0.documents
  {
    match e.id
    case None =>
      var saved := e.(id := Some(t.nextId));
      (Table(t.documents + [saved], t.nextId + 1), saved)
    case Some(x) =>
      match Seqs.FirstIndex(t.documents, HasId(x))
      case Some(k) =>
        var docs := t.documents[k := e];
        assert docs[k] == e;
        (Table(docs, t.nextId), e)
      case None => (Table(t.documents + [e], if x < t.nextId then t.nextId else x + 1), e)
  }

  /** The entity `addOrUpdateAvailability` builds when the key is new: agent,
      day and creation time set, everything else still null. */
  function NewAvailability(agentId: string, dayOfWeek: string, createdNow: Time): (r: AgentAvailability)
    ensures r.id.None? && HasKey(agentId, dayOfWeek)(r)
    ensures r.createdAt == Some(createdNow) && r.updatedAt.None? && r.timeSlots == []
  {
    AgentAvailability(None, agentId, dayOfWeek, [], Some(createdNow), None)
  }

  /** `addOrUpdateAvailability` on the collection: the table after the save
      and the saved document. `createdNow` and `updatedNow` are the two clock
      readings the method takes (the first only when the key is new). */
  function Upsert(t: Table, agentId: string, dayOfWeek: string, timeSlots: seq<TimeSlot>,
                  createdNow: Time, updatedNow: Time): (r: (Table, AgentAvailability))
    requires WellFormed(t)
    ensures WellFormed(r.0)
  {
    var found := FindByAgentIdAndDayOfWeek(t, agentId, dayOfWeek);
    var entity := if found.None? then NewAvailability(agentId, dayOfWeek, createdNow) else found.value;
    Save(t, entity.(timeSlots := timeSlots, updatedAt := Some(updatedNow)))
  }

  /** A new key: one document is appended, under a new id, with the given
      agent, day and slots, created and updated at the two readings. */
  lemma UpsertCreates(t: Table, agentId: string, dayOfWeek: string, timeSlots: seq<TimeSlot>,
                      createdNow: Time, updatedNow: Time)
    requires WellFormed(t)
    requires FindByAgentIdAndDayOfWeek(t, agentId, dayOfWeek).None?
    ensures var r := Upsert(t, agentId, dayOfWeek, timeSlots, createdNow, updatedNow);
      && r.1 == AgentAvailability(Some(t.nextId), agentId, dayOfWeek, timeSlots, Some(createdNow), Some(updatedNow))
      && r.0.documents == t.documents + [r.1]
  {
  }

  /** A known key: the document keeps its place, id, agent, day and creation
      time; only its slots and update time change, and nothing is appended. */
  lemma UpsertUpdates(t: Table, agentId: string, dayOfWeek: string, timeSlots: seq<TimeSlot>,
                      createdNow: Time, updatedNow: Time, i: nat)
    requires WellFormed(t)
    requires Seqs.FirstIndex(t.documents, HasKey(agentId, dayOfWeek)) == Some(i)
    ensures var r := Upsert(t, agentId, dayOfWeek, timeSlots, createdNow, updatedNow);
      && r.1 == t.documents[i].(timeSlots := timeSlots, updatedAt := Some(updatedNow))
      && r.0.documents == t.documents[i := r.1]
  {
    var e := t.documents[i].(timeSlots := timeSlots, updatedAt := Some(updatedNow));
    var x := e.id.value;
    var k := Seqs.FirstIndex(t.documents, HasId(x));
    assert HasId(x)(t.documents[i]);
  }

  /** After the upsert, looking the key up finds the saved document, which
      holds exactly the given slots and the update reading. */
  lemma UpsertThenFind(t: Table, agentId: string, dayOfWeek: string, timeSlots: seq<TimeSlot>,
                       createdNow: Time, updatedNow: Time)
    requires WellFormed(t)
    ensures var r := Upsert(t, agentId, dayOfWeek, timeSlots, createdNow, updatedNow);
      && FindByAgentIdAndDayOfWeek(r.0, agentId, dayOfWeek) == Some(r.1)
      && r.1.timeSlots == timeSlots && r.1.updatedAt == Some(updatedNow)
      && r.1.agentId == agentId && r.1.dayOfWeek == dayOfWeek
  {
    var r := Upsert(t, agentId, dayOfWeek, timeSlots, createdNow, updatedNow);
    var p := HasKey(agentId, dayOfWeek);
    var i := |t.documents|;
    var found := Seqs.FirstIndex(t.documents, p);
    if found.None? {
      UpsertCreates(t, agentId, dayOfWeek, timeSlots, createdNow, updatedNow);
    } else {
      i := found.value;
      UpsertUpdates(t, agentId, dayOfWeek, timeSlots, createdNow, updatedNow, i);
    }
    FirstMatchKept(t.documents, r.0.documents, p, i);
  }

  /** A document with the key at `i`, behind an unchanged prefix without the
      key, is the one the lookup finds. */
  lemma FirstMatchKept(before: seq<AgentAvailability>, after: seq<AgentAvailability>,
                       p: AgentAvailability -> bool, i: nat)
    requires i <= |before| && i < |after| && p(after[i])
    requires forall j | 0 <= j < i :: !p(before[j])
    requires after[..i] == before[..i]
    ensures Seqs.FirstIndex(after, p) == Some(i)
  {
    forall j | 0 <= j < i
      ensures !p(after[j])
    {
      assert after[j] == after[..i][j] == before[..i][j] == before[j];
    }
  }

  /** Documents of other keys are left exactly as they were, and every
      document the upsert adds has the given key. */
  lemma UpsertLeavesOtherKeys(t: Table, agentId: string, dayOfWeek: string, timeSlots: seq<TimeSlot>,
                              createdNow: Time, updatedNow: Time)
    requires WellFormed(t)
    ensures var r := Upsert(t, agentId, dayOfWeek, timeSlots, createdNow, updatedNow);
      && |t.documents| <= |r.0.documents| <= |t.documents| + 1
      && (forall j | 0 <= j < |t.documents| && !(t.documents[j].agentId == agentId && t.documents[j].dayOfWeek == dayOfWeek)
            :: r.0.documents[j] == t.documents[j])
      && (forall j | |t.documents| <= j < |r.0.documents|
            :: r.0.documents[j].agentId == agentId && r.0.documents[j].dayOfWeek == dayOfWeek)
  {
    match Seqs.FirstIndex(t.documents, HasKey(agentId, dayOfWeek))
    case None =>
      UpsertCreates(t, agentId, dayOfWeek, timeSlots, createdNow, updatedNow);
    case Some(i) =>
      UpsertUpdates(t, agentId, dayOfWeek, timeSlots, createdNow, updatedNow, i);
  }

  /** The upsert never creates a second document for a key: a collection
      with one document per key still has one per key afterwards. */
  lemma UpsertKeepsKeysUnique(t: Table, agentId: string, dayOfWeek: string, timeSlots: seq<TimeSlot>,
                              createdNow: Time, updatedNow: Time)
    requires WellFormed(t) && KeysUnique(t.documents)
    ensures KeysUnique(Upsert(t, agentId, dayOfWeek, timeSlots, createdNow, updatedNow).0.documents)
  {
    var r := Upsert(t, agentId, dayOfWeek, timeSlots, createdNow, updatedNow);
    match Seqs.FirstIndex(t.documents, HasKey(agentId, dayOfWeek))
    case None =>
      UpsertCreates(t, agentId, dayOfWeek, timeSlots, createdNow, updatedNow);
    case Some(i) =>
      UpsertUpdates(t, agentId, dayOfWeek, timeSlots, createdNow, updatedNow, i);
      assert SameKey(r.0.documents[i], t.documents[i]);
  }

  /** Repeating the upsert for a key leaves the number of documents as the
      first upsert made it. */
  lemma UpsertAgainAddsNothing(t: Table, agentId: string, dayOfWeek: string, timeSlots: seq<TimeSlot>,
                               timeSlots': seq<TimeSlot>, createdNow: Time, updatedNow: Time,
                               createdNow': Time, updatedNow': Time)
    requires WellFormed(t)
    ensures var t1 := Upsert(t, agentId, dayOfWeek, timeSlots, createdNow, updatedNow).0;
      |Upsert(t1, agentId, dayOfWeek, timeSlots', createdNow', updatedNow').0.documents| == |t1.documents|
  {
    var t1 := Upsert(t, agentId, dayOfWeek, timeSlots, createdNow, updatedNow).0;
    UpsertThenFind(t, agentId, dayOfWeek, timeSlots, createdNow, updatedNow);
    var i := Seqs.FirstIndex(t1.documents, HasKey(agentId, dayOfWeek));
    assert i.Some?;
    UpsertUpdates(t1, agentId, dayOfWeek, timeSlots', createdNow', updatedNow', i.value);
  }

  /** Two calls for a new key that both look the key up before either saves
      (no transaction, no unique index) both insert: the collection then
      holds two documents with that key. */
  lemma TwoInsertsBreakKeysUnique(t: Table, agentId: string, dayOfWeek: string,
                                  slots1: seq<TimeSlot>, slots2: seq<TimeSlot>,
                                  created1: Time, updated1: Time, created2: Time, updated2: Time)
    requires WellFormed(t)
    requires FindByAgentIdAndDayOfWeek(t, agentId, dayOfWeek).None?
    ensures var e1 := NewAvailability(agentId, dayOfWeek, created1).(timeSlots := slots1, updatedAt := Some(updated1));
            var e2 := NewAvailability(agentId, dayOfWeek, created2).(timeSlots := slots2, updatedAt := Some(updated2));
            var t2 := Save(Save(t, e1).0, e2).0;
            WellFormed(t2) && !KeysUnique(t2.documents)
  {
    var e1 := NewAvailability(agentId, dayOfWeek, created1).(timeSlots := slots1, updatedAt := Some(updated1));
    var e2 := NewAvailability(agentId, dayOfWeek, created2).(timeSlots := slots2, updatedAt := Some(updated2));
    var t2 := Save(Save(t, e1).0, e2).0;
    var n := |t.documents|;
    assert SameKey(t2.documents[n], t2.documents[n + 1]);
  }

  /** The service, holding the collection it reads and writes. Its calls run
      one at a time from an empty collection, so the collection keeps one
      document per key. */
  class AgentAvailabilityService {
    var table: Table

    ghost predicate Valid()
      reads this
    {
      WellFormed(table) && KeysUnique(table.documents)
    }

    constructor()
      ensures table == Table([], 0) && Valid()
    {
      table := Table([], 0);
    }

    /** `addOrUpdateAvailability`: look the key up, create the entity when it
        is new, set its slots and update time, and save it. The statements
        follow the Java method one by one; `Upsert` is the same computation
        as a value, and the ensures ties the two together. */
    method AddOrUpdateAvailability(agentId: string, dayOfWeek: string, timeSlots: seq<TimeSlot>,
                                   createdNow: Time, updatedNow: Time)
      returns (saved: AgentAvailability)
      requires Valid()
      modifies this
      ensures Valid()
      ensures (table, saved) == Upsert(old(table), agentId, dayOfWeek, timeSlots, createdNow, updatedNow)
    {
      var availability := FindByAgentIdAndDayOfWeek(table, agentId, dayOfWeek);
      var entity: AgentAvailability;
      if availability.None? {
        entity := NewAvailability(agentId, dayOfWeek, createdNow);
      } else {
        entity := availability.value;
      }
      entity := entity.(timeSlots := timeSlots);
      entity := entity.(updatedAt := Some(updatedNow));
      UpsertKeepsKeysUnique(table, agentId, dayOfWeek, timeSlots, createdNow, updatedNow);
      var result := Save(table, entity);
      table := result.0;
      saved := result.1;
    }

    /** `getAvailabilityByAgent`: exactly the stored documents of the agent. */
    function GetAvailabilityByAgent(agentId: string): (r: seq<AgentAvailability>)
      reads this
      ensures forall d :: multiset(r)[d] == if d.agentId == agentId then multiset(table.documents)[d] else 0
    {
      FindByAgentId(table, agentId)
    }
  }
}
