# simplenote: the note validator and the REST handlers, in Dafny

This project models the core of a single-user note-taking web application.
A note has an `id`, a `title`, a `content` and a `lastModified` time. The
model covers two parts:

- **The note-payload validator** (`insertNoteSchema`). The server runs it on
  request bodies, and the note editor runs it on its form. A payload is
  accepted exactly when `title` is a string of 1 to 100 characters and
  `content` is a string of at least one character. The title and content come
  back untouched. Keys outside the schema, `id` and `lastModified` among them,
  are stripped. The zod schema is modelled as data: a shape, which is an
  ordered list of string fields, each with a chain of `min`/`max` checks. An
  interpreter (`Schema.ParseShape`, `Schema.RunChecks`) applies it the way
  zod does. It checks every field and reports every issue, title before
  content. `Schema.Acceptable` is the same rule written as a plain predicate,
  and `Schema.SafeParse` is proved to agree with it.
- **The five REST handlers** of `registerRoutes`. Each one is a function
  (`Routes.GetAll`, `GetOne`, `Post`, `Patch`, `Delete`). It takes the
  request and the store operation it calls, passed as a function value. It
  returns an `Exchange`: the store calls it made and the one response it
  sent. On top of these, module `Server` runs the handlers imperatively:
  - `Store.NoteStore` is a class whose `notes: map<int, Note>` field the store
    operations update, with a log of the calls made on it.
  - `Server.Reply` stands for Express's `res`.
  - `Server.HandlePost` and the other handler methods validate, call the
    store, write one response and return early, just as the TypeScript does.
  Each handler method is proved to send the response and make the store
  calls that the matching `Routes` function decides. It is also proved to
  keep the store invariant `Store.Consistent`: every stored note is filed
  under its own id and meets the schema's length rules.

`Schema.Note` has four fields, none of them optional, because every column
of the `notes` table is NOT NULL. `Schema.InsertNote` has only `title` and
`content`, so a validated payload cannot carry `id` or `lastModified`.

The store module is not part of this model. The handlers only call it and
act on what it hands back:
- `getNote` yields a note or nothing, and the handler tests for nothing.
- `createNote` returns a note.
- `updateNote` and `deleteNote` either resolve or throw. The handlers never
  check whether the id exists; they answer any throw with 404 "Note not found".
- `updateNote` may resolve with no note: PATCH has no emptiness test, so it
  then answers 200 with an empty body. `Routes.Patch` covers that case.

`Routes` states the handlers for every possible store answer. `Store` adds a
concrete store for the end-to-end part. That store makes ASSUMPTIONS of its
own, listed under "## Left out":
- `updateNote` and `deleteNote` throw exactly when no note has the id.
- The fresh id and the timestamp of a creation or update are parameters.
- The order in which `getNotes` lists the notes is left open.

The code differs from a conventional REST contract in these points:
- An `id` or `lastModified` in a request body is silently ignored, not rejected.
- Every throw of `updateNote` and `deleteNote` becomes 404, whatever its cause.
- No handler produces a 5xx response itself.
- A non-numeric `:id` goes to the store as whatever `Number(...)` makes of it.

## Model

| member | source | states |
|---|---|---|
| Schema.RunChecks | shared/schema.ts:15-16 | a chain of length checks yields no issue exactly when the string passes every check; each failing check is reported with its bound and message, and every issue comes from a failing check |
| Schema.ParseString | shared/schema.ts:15-16 | `z.string()` with its checks accepts exactly a string value passing every check and returns that string unchanged; otherwise it reports at least one issue, all under the field's key |
| Schema.ParseShape | shared/schema.ts:12-17 | an object of string fields parses exactly when every field of the shape is present, a string and passes its checks; the values come back in shape order; every issue names a field that failed |
| Schema.SafeParse | shared/schema.ts:12-17 | `insertNoteSchema.safeParse` succeeds exactly when title has 1..100 characters and content at least 1 (both strings), and then yields them exactly as sent; a rejection carries at least one issue |
| Schema.ParseShapeReadsOnlyShapeKeys | shared/schema.ts:12-14 | two bodies that agree on the shape's keys parse identically: other keys are stripped |
| Schema.FieldIssuesReported | shared/schema.ts:14-17 | every issue of any failing field appears in the object's issue list |
| Schema.UnknownKeysIgnored | shared/schema.ts:12-14 | adding keys other than title and content never changes the validation result |
| Schema.ServerColumnsIgnored | shared/schema.ts:12-13 | whatever the caller puts under `id` and `lastModified`, validation comes out as if they were absent |
| Schema.EmptyTitleRejected | shared/schema.ts:15 | an empty title is rejected with the issue "Title is required" |
| Schema.LongTitleRejected | shared/schema.ts:15 | a title of more than 100 characters is rejected by the max(100) check |
| Schema.TitleLimitInclusive | shared/schema.ts:15 | a 100-character title is accepted and a 101-character title is rejected |
| Schema.EmptyContentRejected | shared/schema.ts:16 | an empty content is rejected with the issue "Content is required" |
| Schema.BothFieldsReported | shared/schema.ts:14-17 | when both fields are bad, issues for both title and content are reported |
| Schema.IssuesNameFields | shared/schema.ts:14-17 | every issue reported for an object body is about title or content |
| Schema.NonObjectRejected | shared/schema.ts:12 | a body that is not a JSON object is rejected with one type issue about the body itself |
| Schema.EditorAndServerAgree | client/src/components/note-editor.tsx:26-47 | the editor's form passes the shared schema exactly when its title and content meet the length rules, and the payload it then sends is accepted by the server unchanged |
| Schema.RevalidationIsIdentity | shared/schema.ts:12-17 | a validated payload, sent again, validates to itself |
| Routes.Rejected | server/routes.ts:23-25 | a rejected body is answered with 400 and a non-empty list of issues |
| Routes.GetAll | server/routes.ts:7-10 | GET /api/notes calls getNotes once and always answers 200 with exactly the list the store returned |
| Routes.GetOne | server/routes.ts:12-19 | GET /api/notes/:id answers 200 with the note exactly when the store found one, and 404 "Note not found" otherwise |
| Routes.Post | server/routes.ts:21-30 | POST makes no store call exactly when the body is invalid, answering 400; otherwise it passes exactly the validated payload to createNote and answers 201 with the note returned |
| Routes.Patch | server/routes.ts:32-45 | PATCH makes no store call exactly when the body is invalid, answering 400; otherwise it passes id and validated payload to updateNote, answering 200 with its note (an empty body if it resolved with none) and 404 exactly when it threw; the status is never other than 200, 400 or 404 |
| Routes.Delete | server/routes.ts:47-54 | DELETE calls deleteNote without validating anything and answers 204 with no body exactly when it succeeded, 404 "Note not found" otherwise |
| Routes.PatchValidatesFirst | server/routes.ts:32-40 | for an invalid body PATCH answers 400 identically whatever the store would do, so whether the id exists does not matter |
| Routes.PostValidatesFirst | server/routes.ts:21-28 | for an invalid body POST answers identically whatever the store would do |
| Routes.HandlersStayInContract | server/routes.ts:7-54 | every handler makes at most one store call and answers with one of 200, 201, 204, 400, 404 |
| Store.Created | server/routes.ts:28-29 | the note createNote returns has the id the store chose and the payload's title and content |
| Store.AfterUpdate | server/routes.ts:40 | updateNote keeps the set of ids and every other note, and its answer is the rewritten note |
| Store.AfterDelete | server/routes.ts:49 | deleteNote removes exactly the given id and keeps every other note |
| Store.CreateKeepsConsistent | server/routes.ts:22-28 | creating from a validated payload keeps every stored note well formed and filed under its id |
| Store.UpdateKeepsConsistent | server/routes.ts:33-40 | updating from a validated payload keeps every stored note well formed and filed under its id |
| Store.DeleteKeepsConsistent | server/routes.ts:47-50 | deleting keeps every stored note well formed and filed under its id |
| Store.NoteStore.GetNotes | server/routes.ts:8 | getNotes lists every stored note exactly once, in an order left open, and changes no note |
| Store.NoteStore.GetNote | server/routes.ts:13 | getNote yields the note stored under the id, or nothing, and changes no note |
| Store.NoteStore.CreateNote | server/routes.ts:28 | createNote files the payload under the fresh id and returns that note |
| Store.NoteStore.UpdateNote | server/routes.ts:40 | updateNote rewrites title, content and time of an existing note, keeping its id, and fails without change for an unknown id |
| Store.NoteStore.DeleteNote | server/routes.ts:49 | deleteNote removes an existing note, and fails without change for an unknown id |
| Server.Reply.Status | server/routes.ts:15 | `res.status(code)` sets the status the next response is sent with |
| Server.Reply.Json | server/routes.ts:18 | `res.json(value)` sends one response with the current status and that body |
| Server.Reply.Send | server/routes.ts:50 | `res.send()` sends one response with the current status and no body |
| Server.HandleGetAll | server/routes.ts:7-10 | the GET-all handler sends exactly the one response `Routes.GetAll` decides for the listing getNotes returned, which holds every stored note once, makes exactly its one store call, and changes no note |
| Server.HandleGetOne | server/routes.ts:12-19 | the GET-by-id handler sends exactly the one response `Routes.GetOne` decides for the stored notes, returning right after a 404, and changes no note |
| Server.HandlePost | server/routes.ts:21-30 | the POST handler sends exactly the one response `Routes.Post` decides, leaves the store untouched for an invalid body, otherwise adds exactly the validated note, and keeps the store consistent |
| Server.HandlePatch | server/routes.ts:32-45 | the PATCH handler sends exactly the one response `Routes.Patch` decides, leaves the store untouched for an invalid body or unknown id, otherwise rewrites that one note, and keeps the store consistent |
| Server.HandleDelete | server/routes.ts:47-54 | the DELETE handler sends exactly the one response `Routes.Delete` decides, removes exactly that id, and keeps the store consistent |
| Server.CreateThenGet | server/routes.ts:12-30 | a created note read back by its id is the note POST answered with, with title and content exactly as sent |
| Server.DeleteTwice | server/routes.ts:47-54 | with a store that throws on an unknown id, a delete that answered 204 is followed by 404 for the same id |
| Server.UnknownIdNotFound | server/routes.ts:12-54 | GET on an id no note has answers 404 "Note not found"; so do a valid PATCH and DELETE, with a store that throws on an unknown id |
| Server.PatchRewrites | server/routes.ts:39-41 | a valid PATCH of a stored note answers 200 with that note carrying the new title and content, its id unchanged |

## Left out

- `Number(req.params.id)`: the id reaches the handlers as an already-parsed integer. JavaScript's string-to-number coercion (NaN, "" as 0, hex, whitespace) is not modelled.
- The text of `result.error.message`: zod serialises its issues into that text, and the model keeps the issue list itself. The `max(100)` check has no custom message, so its message is `None`, standing for zod's default wording.
- String length: zod counts UTF-16 code units, and the model counts the characters of a `seq<char>`. The two differ for characters outside the Basic Multilingual Plane.
- JSON numbers are integers in the model. No rule looks at numbers, so nothing depends on this.
- The construction of the schema from the table: `createInsertSchema(notes).omit(...).extend(...)` is modelled by the shape it produces (`Schema.InsertNoteShape`), not step by step through drizzle-zod.
- Store.Updated, Store.Deleted: these assume that `updateNote` and `deleteNote` throw exactly when no note has the id. The storage module is not part of this model, and the handlers do not depend on this.
- Server.UnknownIdNotFound: its PATCH and DELETE parts hold only under the store assumption above. A `deleteNote` that ignores an unknown id would make DELETE answer 204, as `Routes.Delete` states for any store.
- Server.DeleteTwice: holds only under the same store assumption.
- Store.NoteStore.UpdateNote: the concrete store never resolves an update with no note. That case is modelled in `Routes.Patch` only.
- Routes.Post: `createNote` is taken to always return a note. A creation that resolved with nothing would be answered 201 with an empty body, and that case is not modelled.
- Store internals: how ids are chosen, how timestamps are read, the order of `getNotes`, and persistence. The fresh id and the time are parameters, and the listing order is left open.
- Store exceptions in GET /api/notes, GET /api/notes/:id and POST. `routes.ts` does not catch them there, and what then happens depends on the Express version, so those handlers take a store result that cannot fail.
- Express and HTTP server setup, `async`/`await`, and concurrency between requests.
- drizzle-orm column and SQL type mapping, beyond every column being present and not null.
- `lastModified` values: a timestamp is an opaque integer.
- The client pages: React rendering, react-query cache invalidation, toasts, the delete confirmation dialog, and the editor's choice of PATCH or POST. Only the editor's use of the shared schema is modelled (`Schema.EditorAndServerAgree`).
