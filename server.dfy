/**
 * The handlers of `registerRoutes` as they run: each validates, calls the
 * shared store, writes its response to `res` and returns. Each method is
 * proved to send exactly the response, and make exactly the store calls,
 * that the matching function in `Routes` decides, and to change the store
 * exactly as the store's operations do.
 */
module Server {
  import opened Schema
  import opened Routes
  import opened Store

  /** The Express response object: a status to send with, and what has been sent. */
  class Reply {
    var statusCode: nat
    var sent: seq<Response>

    /** A fresh response object: Express starts at status 200. */
    constructor ()
      ensures statusCode == 200 && sent == []
    {
      statusCode := 200;
      sent := [];
    }

    /** `res.status(code)` */
    method Status(code: nat)
      modifies this`statusCode
      ensures statusCode == code
    {
      statusCode := code;
    }

    /** `res.json(value)` */
    method Json(body: ResponseBody)
      modifies this`sent
      ensures sent == old(sent) + [Response(statusCode, body)]
    {
      sent := sent + [Response(statusCode, body)];
    }

    /** `res.send()` with nothing to send */
    method Send()
      modifies this`sent
      ensures sent == old(sent) + [Response(statusCode, NoBody)]
    {
      sent := sent + [Response(statusCode, NoBody)];
    }
  }

  /** GET /api/notes */
  method HandleGetAll(store: NoteStore, res: Reply) returns (listed: seq<Note>)
    requires store.Valid() && res.statusCode == 200
    modifies store`calls, res
    ensures store.notes == old(store.notes)
    ensures Lists(listed, store.notes)
    ensures res.sent == old(res.sent) + [GetAll(listed).response]
    ensures store.calls == old(store.calls) + GetAll(listed).calls
  {
    listed := store.GetNotes();
    res.Json(NoteList(listed));
  }

  /** GET /api/notes/:id */
  method HandleGetOne(store: NoteStore, res: Reply, id: int)
    requires res.statusCode == 200
    modifies store`calls, res
    ensures store.notes == old(store.notes)
    ensures var notes := store.notes;
      var x := GetOne(id, i => Find(notes, i));
      res.sent == old(res.sent) + [x.response] && store.calls == old(store.calls) + x.calls
  {
    var note := store.GetNote(id);
    if note.None? {
      res.Status(404);
      res.Json(Message("Note not found"));
      return;
    }
    res.Json(NoteBody(note.value));
  }

  /** POST /api/notes, where the store files a new note under `id` at time `now`. */
  method HandlePost(store: NoteStore, res: Reply, body: Json, id: int, now: Timestamp)
    requires store.Valid() && res.statusCode == 200
    requires id !in store.notes
    modifies store, res
    ensures store.Valid()
    ensures store.notes == if Acceptable(body) then old(store.notes)[id := Created(id, Submitted(body), now)]
                           else old(store.notes)
    ensures var x := Post(body, data => Created(id, data, now));
      res.sent == old(res.sent) + [x.response] && store.calls == old(store.calls) + x.calls
  {
    var result := SafeParse(body);
    if result.Err? {
      res.Status(400);
      res.Json(InvalidBody(result.error));
      return;
    }
    var note := store.CreateNote(result.value, id, now);
    CreateKeepsConsistent(old(store.notes), id, body, now);
    res.Status(201);
    res.Json(NoteBody(note));
  }

  /** PATCH /api/notes/:id, where an update stamps the note with time `now`. */
  method HandlePatch(store: NoteStore, res: Reply, id: int, body: Json, now: Timestamp)
    requires store.Valid() && res.statusCode == 200
    modifies store, res
    ensures store.Valid()
    ensures store.notes == if Acceptable(body) then AfterUpdate(old(store.notes), id, Submitted(body), now)
                           else old(store.notes)
    ensures var before := old(store.notes);
      var x := Patch(id, body, (i, data) => Updated(before, i, data, now));
      res.sent == old(res.sent) + [x.response] && store.calls == old(store.calls) + x.calls
  {
    var result := SafeParse(body);
    if result.Err? {
      res.Status(400);
      res.Json(InvalidBody(result.error));
      return;
    }
    var outcome := store.UpdateNote(id, result.value, now);
    UpdateKeepsConsistent(old(store.notes), id, body, now);
    match outcome {
      case Returned(note) =>
        res.Json(if note.Some? then NoteBody(note.value) else NoBody);
      case Threw =>
        res.Status(404);
        res.Json(Message("Note not found"));
    }
  }

  /** DELETE /api/notes/:id */
  method HandleDelete(store: NoteStore, res: Reply, id: int)
    requires store.Valid() && res.statusCode == 200
    modifies store, res
    ensures store.Valid()
    ensures store.notes == AfterDelete(old(store.notes), id)
    ensures var before := old(store.notes);
      var x := Delete(id, i => Deleted(before, i));
      res.sent == old(res.sent) + [x.response] && store.calls == old(store.calls) + x.calls
  {
    var outcome := store.DeleteNote(id);
    DeleteKeepsConsistent(old(store.notes), id);
    if outcome.Returned? {
      res.Status(204);
      res.Send();
    } else {
      res.Status(404);
      res.Json(Message("Note not found"));
    }
  }

  /**
   * Creating a note and then reading it back by its id gives the note the
   * create answered with, carrying the title and content exactly as sent.
   */
  lemma CreateThenGet(notes: map<int, Note>, body: Json, id: int, now: Timestamp)
    requires Acceptable(body) && id !in notes
    ensures var created := Post(body, data => Created(id, data, now)).response;
      var after := notes[id := Created(id, Submitted(body), now)];
      && created.status == 201
      && created.body.note.id == id
      && created.body.note.title == body.fields["title"].s
      && created.body.note.content == body.fields["content"].s
      && GetOne(id, i => Find(after, i)).response == Response(200, created.body)
  {
  }

  /**
   * After a successful delete, deleting the same id again answers 404, for
   * a store that throws on an unknown id.
   */
  lemma DeleteTwice(notes: map<int, Note>, id: int)
    requires id in notes
    ensures Delete(id, i => Deleted(notes, i)).response == Response(204, NoBody)
    ensures var after := AfterDelete(notes, id);
      Delete(id, i => Deleted(after, i)).response == NotFound
  {
  }

  /**
   * Reading, updating with a valid body, or deleting an id no note has
   * answers 404; for update and delete this rests on the store throwing on
   * an unknown id.
   */
  lemma UnknownIdNotFound(notes: map<int, Note>, id: int, body: Json, now: Timestamp)
    requires id !in notes
    ensures GetOne(id, i => Find(notes, i)).response == NotFound
    ensures Delete(id, i => Deleted(notes, i)).response == NotFound
    ensures Acceptable(body) ==> Patch(id, body, (i, data) => Updated(notes, i, data, now)).response == NotFound
  {
  }

  /** A valid PATCH of a stored note answers 200 with the note rewritten in place. */
  lemma PatchRewrites(notes: map<int, Note>, id: int, body: Json, now: Timestamp)
    requires id in notes && Acceptable(body)
    ensures var after := AfterUpdate(notes, id, Submitted(body), now);
      && Patch(id, body, (i, data) => Updated(notes, i, data, now)).response == Response(200, NoteBody(after[id]))
      && after[id] == Note(id, body.fields["title"].s, body.fields["content"].s, now)
  {
  }
}
