/** The note editor of src/_root/main/NoteEditor.tsx: the note list, the
    note being edited, and the save that creates a note whose id is still a
    local "temp-" id and updates any other. */
module Notes {
  import opened Wrappers
  import opened JsText
  import Lists

  /** A note; `folder` is `null` when absent. */
  datatype Note = Note(id: string, title: string, content: string, folder: Option<string>, createdAt: string)

  /** The body of the create and update requests. */
  datatype NotePayload = NotePayload(title: string, content: string, folder: string)

  /** `POST /private/notes` or `PUT /private/notes/{id}`. */
  datatype NoteRequest = Create(payload: NotePayload) | Update(id: string, payload: NotePayload)

  /** The marker of an id made locally, before the server has stored the note. */
  const TempPrefix := "temp-"

  /** `createNewNote`'s note: a local id, empty title and content, folder
      "Geral". `randomPart` is the random suffix and `now` the creation time
      text. */
  function NewNote(randomPart: string, now: string): (r: Note)
    ensures StartsWith(r.id, TempPrefix)
    ensures r.title == "" && r.content == "" && r.folder == Some("Geral") && r.createdAt == now
  {
    Note(TempPrefix + randomPart, "", "", Some("Geral"), now)
  }

  /** The body `saveCurrentNote` sends: the editor's HTML, an empty title
      replaced by "Sem Título" and a null or empty folder by "Geral". */
  function PayloadOf(note: Note, html: string): NotePayload {
    NotePayload(if note.title == "" then "Sem Título" else note.title, html,
                if note.folder.None? || note.folder.value == "" then "Geral" else note.folder.value)
  }

  /** The payload never carries an empty title or folder, and keeps a given
      title and folder as they are. */
  lemma PayloadDefaults(note: Note, html: string)
    ensures var p := PayloadOf(note, html);
      p.title != "" && p.folder != "" && p.content == html &&
      (note.title != "" ==> p.title == note.title) &&
      (note.title == "" ==> p.title == "Sem Título") &&
      (note.folder.Some? && note.folder.value != "" ==> p.folder == note.folder.value) &&
      (note.folder.None? || note.folder.value == "" ==> p.folder == "Geral")
  {
  }

  /** A note whose id carries the local marker is created, any other is
      updated under its own id. */
  function RequestOf(note: Note, html: string): (r: NoteRequest)
    ensures r.Create? <==> StartsWith(note.id, TempPrefix)
    ensures r.Update? ==> r.id == note.id
    ensures r.payload == PayloadOf(note, html)
  {
    if StartsWith(note.id, TempPrefix) then Create(PayloadOf(note, html))
    else Update(note.id, PayloadOf(note, html))
  }

  /** A note from `createNewNote` is always created, never updated. */
  lemma NewNoteIsCreated(randomPart: string, now: string, html: string)
    ensures RequestOf(NewNote(randomPart, now), html).Create?
  {
  }

  /** The updater after an update: the note with that id is replaced by the
      server's, every other note stays where it is. */
  function ReplaceNote(notes: seq<Note>, id: string, saved: Note): (r: seq<Note>)
    ensures |r| == |notes|
    ensures forall i :: 0 <= i < |notes| ==> r[i] == if notes[i].id == id then saved else notes[i]
  {
    Lists.UpdateWhere(notes, (n: Note) => n.id == id, (n: Note) => saved)
  }

  /** Replacing a note that is not in the list changes nothing. */
  lemma ReplaceAbsentNote(notes: seq<Note>, id: string, saved: Note)
    requires forall n :: n in notes ==> n.id != id
    ensures ReplaceNote(notes, id, saved) == notes
  {
    var r := ReplaceNote(notes, id, saved);
    assert forall i :: 0 <= i < |notes| ==> r[i] == notes[i] by {
      forall i | 0 <= i < |notes|
        ensures r[i] == notes[i]
      {
        assert notes[i] in notes;
      }
    }
  }

  class NoteEditor {
    var notes: seq<Note>
    var isEditing: bool
    var currentNote: Option<Note>

    constructor ()
      ensures notes == [] && !isEditing && currentNote == None
    {
      notes := [];
      isEditing := false;
      currentNote := None;
    }

    /** `fetchNotes`: the reply replaces the list; a failed request keeps it. */
    method FetchNotes(reply: Option<seq<Note>>)
      modifies this
      ensures reply.Some? ==> notes == reply.value
      ensures reply.None? ==> notes == old(notes)
      ensures isEditing == old(isEditing) && currentNote == old(currentNote)
    {
      if reply.Some? {
        notes := reply.value;
      }
    }

    /** `openNote`: the note becomes the one being edited. */
    method OpenNote(note: Note)
      modifies this
      ensures currentNote == Some(note) && isEditing
      ensures notes == old(notes)
    {
      currentNote := Some(note);
      isEditing := true;
    }

    /** `createNewNote`: a fresh local note is opened; the list is not
        touched until the note is saved. */
    method CreateNewNote(randomPart: string, now: string) returns (note: Note)
      modifies this
      ensures note == NewNote(randomPart, now)
      ensures currentNote == Some(note) && isEditing
      ensures notes == old(notes)
    {
      note := NewNote(randomPart, now);
      OpenNote(note);
    }

    /** The title input edits the current note, when there is one. */
    method SetTitle(title: string)
      modifies this
      ensures old(currentNote).Some? ==> currentNote == Some(old(currentNote).value.(title := title))
      ensures old(currentNote).None? ==> currentNote == None
      ensures notes == old(notes) && isEditing == old(isEditing)
    {
      if currentNote.Some? {
        currentNote := Some(currentNote.value.(title := title));
      }
    }

    /** `saveCurrentNote`: `html` is the editor's HTML (`None` while the
        editor is not ready), `request` what is sent (`None`: nothing is, for
        want of a note or an editor), `reply` the stored note, `None` when the
        request fails. A created note goes in front, an updated one replaces
        its namesake; either way the editor closes. A failure changes
        nothing. */
    method SaveCurrentNote(html: Option<string>, reply: Option<Note>) returns (request: Option<NoteRequest>)
      modifies this
      ensures request.None? <==> old(currentNote).None? || html.None?
      ensures request.Some? ==> request.value == RequestOf(old(currentNote).value, html.value)
      ensures request.Some? && reply.Some? && request.value.Create? ==> notes == [reply.value] + old(notes)
      ensures request.Some? && reply.Some? && request.value.Update? ==>
        notes == ReplaceNote(old(notes), old(currentNote).value.id, reply.value)
      ensures request.Some? && reply.Some? ==> !isEditing && currentNote == None
      ensures request.None? || reply.None? ==>
        notes == old(notes) && isEditing == old(isEditing) && currentNote == old(currentNote)
    {
      if currentNote.None? || html.None? {
        return None;
      }
      request := Some(RequestOf(currentNote.value, html.value));
      if reply.None? {
        return;
      }
      if request.value.Create? {
        notes := [reply.value] + notes;
      } else {
        notes := ReplaceNote(notes, currentNote.value.id, reply.value);
      }
      isEditing := false;
      currentNote := None;
    }
  }
}
