/**
 * The note API (app1-note/src/app/api/notes/route.ts): `noteSchema`, the
 * newest-first listing, and note creation with its error mapping. The note
 * table lives in `NoteStore`; ids, the clock and storage outages are
 * parameters.
 */
module Notes {
  import opened Wrappers
  import opened Schema
  import opened Ordering

  datatype Note = Note(id: string, title: string, content: string, createdAt: int)

  /** The payload `noteSchema.parse` returns: only the two known fields. */
  datatype NoteInput = NoteInput(title: string, content: string)

  /** The error messages, as tags. */
  datatype ErrorTag = ValidationFailed | FetchFailed | CreateFailed

  /** Response bodies: the list, the created note, or `{ error, details? }`. */
  datatype NoteBody =
    | NoteList(notes: seq<Note>)
    | Created(note: Note)
    | Failure(error: ErrorTag, details: Option<seq<Issue>>)

  datatype NoteReply = NoteReply(status: int, body: NoteBody)

  /** The body passes `noteSchema`: title and content are strings of at least one character. */
  predicate ValidNoteBody(body: Value) {
    body.Object? && IsNonEmptyText(body.fields, "title") && IsNonEmptyText(body.fields, "content")
  }

  /** `noteSchema.parse(body)`: every failing field is reported. */
  function ValidateNote(body: Value): (r: Result<NoteInput, seq<Issue>>)
    ensures r.Ok? <==> ValidNoteBody(body)
    ensures r.Ok? ==> r.value == NoteInput(body.fields["title"].s, body.fields["content"].s)
    ensures r.Err? ==> |r.error| >= 1
    ensures r.Err? && body.Object? ==>
      Paths(r.error) == (if IsNonEmptyText(body.fields, "title") then {} else {"title"})
                        + (if IsNonEmptyText(body.fields, "content") then {} else {"content"})
  {
    if !body.Object? then Err(NotAnObject)
    else
      var f := body.fields;
      var issues := NonEmptyTextIssues(f, "title") + NonEmptyTextIssues(f, "content");
      PathsOfConcat(NonEmptyTextIssues(f, "title"), NonEmptyTextIssues(f, "content"));
      if issues == [] then Ok(NoteInput(f["title"].s, f["content"].s)) else Err(issues)
  }

  function CreatedAt(n: Note): int {
    n.createdAt
  }

  /** `GET /api/notes`: all notes newest first, or 500 with only a generic error. */
  function ListNotes(notes: seq<Note>, storageFails: bool): (r: NoteReply)
    ensures r.status == 200 <==> !storageFails
    ensures r.status == 200 ==> r.body.NoteList? && IsNewestFirstOrder(r.body.notes, notes, CreatedAt)
    ensures r.status != 200 ==> r == NoteReply(500, Failure(FetchFailed, None))
  {
    if storageFails then NoteReply(500, Failure(FetchFailed, None))
    else NoteReply(200, NoteList(SortNewestFirst(notes, CreatedAt)))
  }

  predicate IdsDistinct(notes: seq<Note>) {
    forall i, j :: 0 <= i < j < |notes| ==> notes[i].id != notes[j].id
  }

  predicate IdTaken(notes: seq<Note>, id: string) {
    exists k :: 0 <= k < |notes| && notes[k].id == id
  }

  /**
   * The `catch` block of the create handler: a validation error gives 400 with
   * details; anything else (an unreadable body, an outage, an id the table
   * already holds) gives 500 with a generic error.
   */
  function CreateFailureReply(validation: Option<seq<Issue>>): (r: NoteReply)
    ensures r.body.Failure?
    ensures r.status == 400 <==> validation.Some?
    ensures r.status != 400 ==> r == NoteReply(500, Failure(CreateFailed, None))
    ensures r.body.details == validation
  {
    match validation
    case Some(details) => NoteReply(400, Failure(ValidationFailed, Some(details)))
    case None => NoteReply(500, Failure(CreateFailed, None))
  }

  class NoteStore {
    var notes: seq<Note>

    ghost predicate Valid()
      reads this
    {
      IdsDistinct(notes)
    }

    constructor ()
      ensures Valid() && notes == []
    {
      notes := [];
    }

    /**
     * `POST /api/notes`. `body` is None when the request body is not JSON.
     * The schema runs before the insert, so nothing is stored unless the
     * reply is 201.
     */
    method Create(body: Option<Value>, id: string, now: int, storageFails: bool) returns (reply: NoteReply)
      requires Valid()
      modifies this
      ensures Valid()
      ensures reply.status == 201 <==>
        body.Some? && ValidNoteBody(body.value) && !storageFails && !IdTaken(old(notes), id)
      ensures reply.status == 201 ==>
        var input := ValidateNote(body.value).value;
        var note := Note(id, input.title, input.content, now);
        notes == old(notes) + [note] && reply.body == Created(note)
      ensures reply.status != 201 ==> notes == old(notes)
      ensures body.Some? && !ValidNoteBody(body.value) ==>
        reply == CreateFailureReply(Some(ValidateNote(body.value).error))
      ensures reply.status != 201 && (body.None? || ValidNoteBody(body.value)) ==>
        reply == CreateFailureReply(None)
    {
      if body.None? {
        reply := CreateFailureReply(None);
        return;
      }
      var parsed := ValidateNote(body.value);
      if parsed.Err? {
        reply := CreateFailureReply(Some(parsed.error));
        return;
      }
      if storageFails || IdTaken(notes, id) {
        reply := CreateFailureReply(None);
        return;
      }
      var note := Note(id, parsed.value.title, parsed.value.content, now);
      notes := notes + [note];
      reply := NoteReply(201, Created(note));
    }
  }

  /** A body missing both fields reports both. */
  lemma EmptyBodyReportsBothFields()
    ensures ValidateNote(Object(map[])) == Err([Issue("title", InvalidType), Issue("content", InvalidType)])
  {
    assert NonEmptyTextIssues(map[], "title") == [Issue("title", InvalidType)];
    assert NonEmptyTextIssues(map[], "content") == [Issue("content", InvalidType)];
    assert [Issue("title", InvalidType)] + [Issue("content", InvalidType)]
        == [Issue("title", InvalidType), Issue("content", InvalidType)];
  }

  /** Unknown fields are dropped from the stored note. */
  lemma ExtraFieldsDropped(title: string, content: string, extra: Value)
    requires |title| >= 1 && |content| >= 1
    ensures ValidateNote(Object(map["title" := Text(title), "content" := Text(content), "pinned" := extra]))
            == Ok(NoteInput(title, content))
  {
  }
}
