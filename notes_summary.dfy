/**
 * The dashboard's notes card: creating a note from its dialog (tags typed
 * as comma-separated text, a 60-character description) and the preview of
 * the first three notes.
 */
module NotesSummary {
  import opened Wrappers
  import opened Text
  import opened Collections

  datatype Note = Note(
    id: string,
    title: string,
    description: string,
    content: Option<string>,
    createdAt: int,
    updatedAt: int,
    tags: Option<seq<string>>)

  datatype NoteForm = NoteForm(title: string, content: string, tags: string)

  /** The number of characters of content a description keeps. */
  const DescriptionLength: nat := 60

  /** Each piece with its surrounding whitespace removed. */
  function Trimmed(pieces: seq<string>): seq<string> {
    seq(|pieces|, k requires 0 <= k < |pieces| => Trim(pieces[k]))
  }

  function NonEmpty(t: string): bool {
    t != ""
  }

  /**
   * The tags typed into the form: the comma-separated pieces, trimmed, with
   * the empty ones dropped. Every tag is non-empty, carries no surrounding
   * whitespace and no comma, and the tags are exactly the non-empty trimmed
   * pieces.
   */
  function ParseTags(text: string): (r: seq<string>)
    ensures forall t :: t in r ==> t != "" && !IsWhitespace(t[0]) && !IsWhitespace(t[|t| - 1]) && ',' !in t
    ensures forall t :: t in r <==> t != "" && t in Trimmed(Split(text, ','))
    ensures |r| <= |Split(text, ',')|
  {
    TagsAreClean(text);
    Filter(Trimmed(Split(text, ',')), NonEmpty)
  }

  lemma TagsAreClean(text: string)
    ensures forall t :: t in Filter(Trimmed(Split(text, ',')), NonEmpty) ==>
              t != "" && !IsWhitespace(t[0]) && !IsWhitespace(t[|t| - 1]) && ',' !in t
  {
    var pieces := Split(text, ',');
    var trimmed := Trimmed(pieces);
    forall t | t in Filter(trimmed, NonEmpty)
      ensures t != "" && !IsWhitespace(t[0]) && !IsWhitespace(t[|t| - 1]) && ',' !in t
    {
      var k :| 0 <= k < |trimmed| && trimmed[k] == t;
      TrimKeepsChars(pieces[k]);
      assert ',' !in pieces[k];
    }
  }

  /** Text without commas comes back as its own single tag once trimmed, unless it is blank. */
  lemma SingleTag(text: string)
    requires ',' !in text
    ensures ParseTags(text) == if AllWhitespace(text) then [] else [Trim(text)]
  {
    TrimEmptyIffBlank(text);
    assert Split(text, ',') == [text];
  }

  /** The description shown for a note: its content cut to 60 characters, marked with "..." when something was cut. */
  function Describe(content: string): (d: string)
    ensures |d| <= DescriptionLength + 3
    ensures |content| <= DescriptionLength ==> d == content
    ensures |content| > DescriptionLength ==>
              |d| == DescriptionLength + 3 && d[..DescriptionLength] == content[..DescriptionLength]
              && d[DescriptionLength..] == "..."
  {
    if |content| > DescriptionLength then content[..DescriptionLength] + "..." else content
  }

  /** For content over 60 characters the description equals the content only when the content is itself 63 characters ending in "...". */
  lemma LongContentEndsWithEllipsis(content: string)
    requires |content| > DescriptionLength
    ensures Describe(content) == content <==> |content| == DescriptionLength + 3 && content[DescriptionLength..] == "..."
  {
    if |content| == DescriptionLength + 3 && content[DescriptionLength..] == "..." {
      assert content == content[..DescriptionLength] + content[DescriptionLength..];
    }
  }

  /** `handleCreateNote`: refuse a blank title or content, otherwise prepend the new note. */
  function CreateNote(notes: seq<Note>, form: NoteForm, freshId: string, now: int): (r: seq<Note>)
    ensures AllWhitespace(form.title) || AllWhitespace(form.content) ==> r == notes
    ensures !AllWhitespace(form.title) && !AllWhitespace(form.content) ==>
              && |r| == |notes| + 1
              && r[1..] == notes
              && var n := r[0];
              && n.id == freshId && n.title == form.title && n.content == Some(form.content)
              && n.description == Describe(form.content)
              && n.createdAt == now && n.updatedAt == now
              && (n.tags.None? <==> ParseTags(form.tags) == [])
              && (n.tags.Some? ==> n.tags.value == ParseTags(form.tags))
  {
    TrimEmptyIffBlank(form.title);
    TrimEmptyIffBlank(form.content);
    if Trim(form.title) == [] || Trim(form.content) == [] then notes
    else
      var tags := ParseTags(form.tags);
      var n := Note(freshId, form.title, Describe(form.content), Some(form.content), now, now,
                    if |tags| > 0 then Some(tags) else None);
      [n] + notes
  }

  /** `notes.slice(0, 3)`: the first three notes, or all of them when there are fewer. */
  function Preview(notes: seq<Note>): (r: seq<Note>)
    ensures |r| == if |notes| < 3 then |notes| else 3
    ensures r == notes[..|r|]
  {
    if |notes| < 3 then notes else notes[..3]
  }

  /** A note just created heads the preview, followed by the notes that were first before it. */
  lemma CreatedNoteHeadsPreview(notes: seq<Note>, form: NoteForm, freshId: string, now: int)
    requires !AllWhitespace(form.title) && !AllWhitespace(form.content)
    ensures var p := Preview(CreateNote(notes, form, freshId, now));
            && |p| == (if |notes| < 2 then |notes| + 1 else 3)
            && p[0].id == freshId
            && forall k :: 1 <= k < |p| ==> p[k] == notes[k - 1]
  {
    var r := CreateNote(notes, form, freshId, now);
    var p := Preview(r);
    assert r[1..] == notes;
    forall k | 1 <= k < |p| ensures p[k] == notes[k - 1] {
      assert p[k] == r[k] == r[1..][k - 1];
    }
  }
}
