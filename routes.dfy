/**
 * The decision logic of the five REST handlers registered by `registerRoutes`.
 *
 * Each handler is a function of the request and of the store operation it
 * calls, passed in as a function value: the store module is not part of this
 * model, so its answer for any argument is an input. A handler returns the
 * store calls it made and the one response it sent.
 */
module Routes {
  import opened Wrappers
  import opened Schema
  import opened Store

  /** The JSON (or empty) body of a response. */
  datatype ResponseBody =
    | NoteBody(note: Note)
    | NoteList(notes: seq<Note>)
    | Message(text: string)
    | InvalidBody(issues: seq<Issue>)   // `{ message: result.error.message }`
    | NoBody

  datatype Response = Response(status: nat, body: ResponseBody)

  /** Everything one request does: the store calls, in order, and the response. */
  datatype Exchange = Exchange(calls: seq<StoreCall>, response: Response)

  const NotFound := Response(404, Message("Note not found"))

  /** The statuses this API can send. */
  predicate KnownStatus(status: nat) {
    status in {200, 201, 204, 400, 404}
  }

  /** The response to a body the schema rejects: 400 with the issues. */
  function Rejected(body: Json): (r: Response)
    requires !Acceptable(body)
    ensures r.status == 400 && r.body.InvalidBody? && r.body.issues != []
  {
    Response(400, InvalidBody(Issues(body)))
  }

  /** GET /api/notes: always 200 with exactly the notes the store listed, in its order. */
  function GetAll(getNotes: seq<Note>): (x: Exchange)
    ensures x.calls == [GetNotes]
    ensures x.response.status == 200
    ensures x.response.body == NoteList(getNotes)
  {
    Exchange([GetNotes], Response(200, NoteList(getNotes)))
  }

  /** GET /api/notes/:id: 200 with the note the store found, 404 when it found none. */
  function GetOne(id: int, getNote: int -> Option<Note>): (x: Exchange)
    ensures x.calls == [GetNote(id)]
    ensures x.response.status == 200 <==> getNote(id).Some?
    ensures getNote(id).Some? ==> x.response.body == NoteBody(getNote(id).value)
    ensures getNote(id).None? ==> x.response == NotFound
  {
    var note := getNote(id);
    if note.None? then Exchange([GetNote(id)], NotFound)
    else Exchange([GetNote(id)], Response(200, NoteBody(note.value)))
  }

  /**
   * POST /api/notes: a body the schema rejects gets 400 and never reaches the
   * store; otherwise the validated payload is created and the new note comes
   * back with 201.
   */
  function Post(body: Json, createNote: InsertNote -> Note): (x: Exchange)
    ensures x.calls == [] <==> !Acceptable(body)
    ensures !Acceptable(body) ==> x.response == Rejected(body)
    ensures Acceptable(body) ==> x.calls == [CreateNote(Submitted(body))]
    ensures Acceptable(body) ==> x.response == Response(201, NoteBody(createNote(Submitted(body))))
  {
    match SafeParse(body)
    case Err(issues) => Exchange([], Response(400, InvalidBody(issues)))
    case Ok(data) => Exchange([CreateNote(data)], Response(201, NoteBody(createNote(data))))
  }

  /**
   * PATCH /api/notes/:id: the body is validated before the store is touched;
   * a valid payload is handed to the store's update, whose answer comes back
   * with 200, and any failure of the update is reported as 404. There is no
   * check for an empty answer: an update that resolves with no note still
   * gets 200, with nothing in the body (`res.json(undefined)`).
   */
  function Patch(id: int, body: Json, updateNote: (int, InsertNote) -> Outcome<Option<Note>>): (x: Exchange)
    ensures x.calls == [] <==> !Acceptable(body)
    ensures !Acceptable(body) ==> x.response == Rejected(body)
    ensures Acceptable(body) ==> x.calls == [UpdateNote(id, Submitted(body))]
    ensures Acceptable(body) ==>
      x.response == match updateNote(id, Submitted(body))
                    case Returned(Some(note)) => Response(200, NoteBody(note))
                    case Returned(None) => Response(200, NoBody)
                    case Threw => NotFound
    ensures x.response.status == 404 <==> Acceptable(body) && updateNote(id, Submitted(body)).Threw?
    ensures x.response.status in {200, 400, 404}
  {
    match SafeParse(body)
    case Err(issues) => Exchange([], Response(400, InvalidBody(issues)))
    case Ok(data) =>
      match updateNote(id, data)
      case Returned(Some(note)) => Exchange([UpdateNote(id, data)], Response(200, NoteBody(note)))
      case Returned(None) => Exchange([UpdateNote(id, data)], Response(200, NoBody))
      case Threw => Exchange([UpdateNote(id, data)], NotFound)
  }

  /** DELETE /api/notes/:id: no body validation; 204 and no body on success, 404 on any failure. */
  function Delete(id: int, deleteNote: int -> Outcome<()>): (x: Exchange)
    ensures x.calls == [DeleteNote(id)]
    ensures x.response.status == 204 <==> deleteNote(id).Returned?
    ensures deleteNote(id).Returned? ==> x.response.body == NoBody
    ensures deleteNote(id).Threw? ==> x.response == NotFound
  {
    match deleteNote(id)
    case Returned(_) => Exchange([DeleteNote(id)], Response(204, NoBody))
    case Threw => Exchange([DeleteNote(id)], NotFound)
  }

  /**
   * Validation takes precedence over the store: for an invalid body PATCH
   * answers the same whatever the store would do, so whether the id exists
   * does not matter.
   */
  lemma PatchValidatesFirst(id: int, body: Json, u1: (int, InsertNote) -> Outcome<Option<Note>>, u2: (int, InsertNote) -> Outcome<Option<Note>>)
    requires !Acceptable(body)
    ensures Patch(id, body, u1) == Patch(id, body, u2)
    ensures Patch(id, body, u1).response.status == 400
  {
  }

  /** POST never lets the store's behaviour decide a rejection either. */
  lemma PostValidatesFirst(body: Json, c1: InsertNote -> Note, c2: InsertNote -> Note)
    requires !Acceptable(body)
    ensures Post(body, c1) == Post(body, c2)
  {
  }

  /**
   * Every handler calls the store at most once and answers with one of the
   * API's known statuses: a store failure in PATCH or DELETE becomes 404,
   * never a server error.
   */
  lemma HandlersStayInContract(
    id: int, body: Json, listed: seq<Note>,
    getNote: int -> Option<Note>, createNote: InsertNote -> Note,
    updateNote: (int, InsertNote) -> Outcome<Option<Note>>, deleteNote: int -> Outcome<()>)
    ensures |GetAll(listed).calls| == 1 && KnownStatus(GetAll(listed).response.status)
    ensures |GetOne(id, getNote).calls| == 1 && KnownStatus(GetOne(id, getNote).response.status)
    ensures |Post(body, createNote).calls| <= 1 && KnownStatus(Post(body, createNote).response.status)
    ensures |Patch(id, body, updateNote).calls| <= 1 && KnownStatus(Patch(id, body, updateNote).response.status)
    ensures |Delete(id, deleteNote).calls| == 1 && KnownStatus(Delete(id, deleteNote).response.status)
  {
  }
}
