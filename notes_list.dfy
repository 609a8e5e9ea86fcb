/**
 * The notes page's list transitions and the date line under each note.
 * Rendering a date for the user's locale is host behaviour and is passed
 * in as a function.
 */
module NotesList {
  import opened Text
  import opened Collections

  datatype Note = Note(id: string, title: string, content: string, createdAt: int, updatedAt: int)

  datatype NoteForm = NoteForm(title: string, content: string)

  /** `handleCreateNote`: refuse a blank title or content, otherwise prepend a note created and updated `now`. */
  function CreateNote(notes: seq<Note>, form: NoteForm, freshId: string, now: int): (r: seq<Note>)
    ensures AllWhitespace(form.title) || AllWhitespace(form.content) ==> r == notes
    ensures !AllWhitespace(form.title) && !AllWhitespace(form.content) ==>
              && |r| == |notes| + 1
              && r[1..] == notes
              && r[0].id == freshId && r[0].title == form.title && r[0].content == form.content
              && r[0].createdAt == now && r[0].updatedAt == now
  {
    TrimEmptyIffBlank(form.title);
    TrimEmptyIffBlank(form.content);
    if Trim(form.title) == [] || Trim(form.content) == [] then notes
    else [Note(freshId, form.title, form.content, now, now)] + notes
  }

  function IdOf(n: Note): string {
    n.id
  }

  /** `handleDeleteNote`: drop every note carrying `id`, keeping the rest in order. */
  function DeleteNote(notes: seq<Note>, id: string): (r: seq<Note>)
    ensures forall n :: n in r ==> n.id != id
    ensures forall n :: n in notes && n.id != id ==> n in r
    ensures |r| == |notes| <==> forall i :: 0 <= i < |notes| ==> notes[i].id != id
  {
    Filter(notes, LacksId(IdOf, id))
  }

  /** Deleting the id of a note just created, when no other note had it, gives back the list before. */
  lemma {:induction false} CreateThenDelete(notes: seq<Note>, form: NoteForm, freshId: string, now: int)
    requires forall n :: n in notes ==> n.id != freshId
    ensures DeleteNote(CreateNote(notes, form, freshId, now), freshId) == notes
  {
    var created := CreateNote(notes, form, freshId, now);
    assert forall i :: 0 <= i < |notes| ==> LacksId(IdOf, freshId)(notes[i]) by {
      forall i | 0 <= i < |notes| ensures LacksId(IdOf, freshId)(notes[i]) {
        assert notes[i] in notes;
      }
    }
    FilterKeepsAll(notes, LacksId(IdOf, freshId));
    if created != notes {
      var n := created[0];
      assert created == [n] + notes;
      FilterAppend([n], notes, LacksId(IdOf, freshId));
      assert Filter([n], LacksId(IdOf, freshId)) == [];
    }
  }

  /** The footer's label: which date it names and the prefix it shows. */
  datatype Footer = Updated(date: string) | Created(date: string)

  /** The footer text: "Updated <date>" when the two dates render differently, "Created <date>" otherwise. */
  function FooterText(f: Footer): string {
    match f
    case Updated(d) => "Updated " + d
    case Created(d) => "Created " + d
  }

  /** The footer choice, given how the user's locale renders a timestamp as a date. */
  function FooterOf(n: Note, localeDate: int -> string): (f: Footer)
    ensures f.Updated? <==> localeDate(n.updatedAt) != localeDate(n.createdAt)
    ensures f.date == if f.Updated? then localeDate(n.updatedAt) else localeDate(n.createdAt)
  {
    if localeDate(n.updatedAt) != localeDate(n.createdAt) then Updated(localeDate(n.updatedAt))
    else Created(localeDate(n.createdAt))
  }

  /** A note just created shows "Created", whatever the locale. */
  lemma NewNoteShowsCreated(notes: seq<Note>, form: NoteForm, freshId: string, now: int, localeDate: int -> string)
    requires !AllWhitespace(form.title) && !AllWhitespace(form.content)
    ensures FooterOf(CreateNote(notes, form, freshId, now)[0], localeDate).Created?
    ensures FooterText(FooterOf(CreateNote(notes, form, freshId, now)[0], localeDate))[..8] == "Created "
  {
  }
}
