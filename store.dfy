/**
 * The note store the handlers call. The storage module itself is not part
 * of this model: the store here is a map from id to note, the fresh id and
 * the clock reading a creation or update uses are inputs, and it is ASSUMED
 * that update and delete throw exactly when no note has the id (the handlers
 * answer any throw with 404 "Note not found"; they never check the id
 * themselves).
 */
module Store {
  import opened Wrappers
  import opened Schema

  /** What a store operation that may throw hands back. */
  datatype Outcome<+T> = Returned(value: T) | Threw

  /** A call into the store, with the arguments the handler passed. */
  datatype StoreCall =
    | GetNotes
    | GetNote(id: int)
    | CreateNote(data: InsertNote)
    | UpdateNote(id: int, data: InsertNote)
    | DeleteNote(id: int)

  /** Every note is filed under its own id and meets the schema's length rules. */
  ghost predicate Consistent(notes: map<int, Note>) {
    forall id | id in notes :: notes[id].id == id && WellFormed(notes[id].title, notes[id].content)
  }

  /** `listed` holds every stored note exactly once, in some order. */
  ghost predicate Lists(listed: seq<Note>, notes: map<int, Note>) {
    && |listed| == |notes|
    && (forall i | 0 <= i < |listed| :: listed[i].id in notes && notes[listed[i].id] == listed[i])
    && (forall id | id in notes :: notes[id] in listed)
  }

  /** getNote: the note with that id, if any. */
  function Find(notes: map<int, Note>, id: int): Option<Note> {
    if id in notes then Some(notes[id]) else None
  }

  /** createNote: the record the store keeps for a payload, under the id and time it chose. */
  function Created(id: int, data: InsertNote, now: Timestamp): (note: Note)
    ensures note.id == id && note.title == data.title && note.content == data.content
  {
    Note(id, data.title, data.content, now)
  }

  /** updateNote's answer, as assumed: the rewritten note, or a throw when the id is unknown. */
  function Updated(notes: map<int, Note>, id: int, data: InsertNote, now: Timestamp): Outcome<Option<Note>> {
    if id in notes then Returned(Some(Note(id, data.title, data.content, now))) else Threw
  }

  /** The notes after updateNote. */
  function AfterUpdate(notes: map<int, Note>, id: int, data: InsertNote, now: Timestamp): (after: map<int, Note>)
    ensures after.Keys == notes.Keys
    ensures forall other | other in notes && other != id :: after[other] == notes[other]
    ensures id in notes ==> Updated(notes, id, data, now) == Returned(Some(after[id]))
  {
    if id in notes then notes[id := Note(id, data.title, data.content, now)] else notes
  }

  /** deleteNote's answer, as assumed: success when a note had the id, a throw otherwise. */
  function Deleted(notes: map<int, Note>, id: int): Outcome<()> {
    if id in notes then Returned(()) else Threw
  }

  /** The notes after deleteNote. */
  function AfterDelete(notes: map<int, Note>, id: int): (after: map<int, Note>)
    ensures after.Keys == notes.Keys - {id}
    ensures forall other | other in after :: after[other] == notes[other]
  {
    notes - {id}
  }

  /** Storing only validated payloads keeps every stored note well formed. */
  lemma CreateKeepsConsistent(notes: map<int, Note>, id: int, body: Json, now: Timestamp)
    requires Consistent(notes) && Acceptable(body)
    ensures Consistent(notes[id := Created(id, Submitted(body), now)])
  {
  }

  lemma UpdateKeepsConsistent(notes: map<int, Note>, id: int, body: Json, now: Timestamp)
    requires Consistent(notes) && Acceptable(body)
    ensures Consistent(AfterUpdate(notes, id, Submitted(body), now))
  {
  }

  lemma DeleteKeepsConsistent(notes: map<int, Note>, id: int)
    requires Consistent(notes)
    ensures Consistent(AfterDelete(notes, id))
  {
  }

  /**
   * A verifier helper, not a property of the store: it supplies the element
   * that `GetNotes` picks from the ids still to be listed.
   */
  lemma NonEmptyHasMember(s: set<int>)
    requires s != {}
    ensures exists k :: k in s
  {
    if forall k :: k !in s {
      assert false;
    }
  }

  /** The store object the handlers share, with a log of the calls made on it. */
  class NoteStore {
    var notes: map<int, Note>
    var calls: seq<StoreCall>

    ghost predicate Valid()
      reads this
    {
      Consistent(notes)
    }

    constructor ()
      ensures Valid() && notes == map[] && calls == []
    {
      notes := map[];
      calls := [];
    }

    /** getNotes: every stored note once; the order is the store's and is left open. */
    method GetNotes() returns (listed: seq<Note>)
      requires Valid()
      modifies this`calls
      ensures calls == old(calls) + [StoreCall.GetNotes]
      ensures Lists(listed, notes)
    {
      listed := [];
      var pending := notes.Keys;
      while pending != {}
        invariant calls == old(calls)
        invariant pending <= notes.Keys
        invariant |listed| + |pending| == |notes|
        invariant forall i | 0 <= i < |listed| ::
          listed[i].id in notes && listed[i].id !in pending && notes[listed[i].id] == listed[i]
        invariant forall id | id in notes && id !in pending :: notes[id] in listed
        decreases |pending|
      {
        NonEmptyHasMember(pending);
        var key :| key in pending;
        listed := listed + [notes[key]];
        pending := pending - {key};
      }
      calls := calls + [StoreCall.GetNotes];
    }

    method GetNote(id: int) returns (found: Option<Note>)
      modifies this`calls
      ensures calls == old(calls) + [StoreCall.GetNote(id)]
      ensures found == Find(notes, id)
    {
      calls := calls + [StoreCall.GetNote(id)];
      found := if id in notes then Some(notes[id]) else None;
    }

    /** createNote, under the fresh id and the clock reading the store chose. */
    method CreateNote(data: InsertNote, id: int, now: Timestamp) returns (note: Note)
      requires id !in notes
      modifies this
      ensures calls == old(calls) + [StoreCall.CreateNote(data)]
      ensures note == Created(id, data, now)
      ensures notes == old(notes)[id := note]
    {
      calls := calls + [StoreCall.CreateNote(data)];
      note := Note(id, data.title, data.content, now);
      notes := notes[id := note];
    }

    method UpdateNote(id: int, data: InsertNote, now: Timestamp) returns (outcome: Outcome<Option<Note>>)
      modifies this
      ensures calls == old(calls) + [StoreCall.UpdateNote(id, data)]
      ensures outcome == Updated(old(notes), id, data, now)
      ensures notes == AfterUpdate(old(notes), id, data, now)
    {
      calls := calls + [StoreCall.UpdateNote(id, data)];
      if id in notes {
        var note := Note(id, data.title, data.content, now);
        notes := notes[id := note];
        outcome := Returned(Some(note));
      } else {
        outcome := Threw;
      }
    }

    method DeleteNote(id: int) returns (outcome: Outcome<()>)
      modifies this
      ensures calls == old(calls) + [StoreCall.DeleteNote(id)]
      ensures outcome == Deleted(old(notes), id)
      ensures notes == AfterDelete(old(notes), id)
    {
      calls := calls + [StoreCall.DeleteNote(id)];
      if id in notes {
        notes := notes - {id};
        outcome := Returned(());
      } else {
        outcome := Threw;
      }
    }
  }
}
