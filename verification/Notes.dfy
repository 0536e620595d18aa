/** Notes: records of ten fields joined by underscores, kept in comma-grown text columns. */
module Notes {
  import opened Texts
  import opened UrlEscape

  datatype Note = Note(
    id: int, classId: int, meetingId: int, userId: int, kind: int,
    key: string, subKey: int, updateIP: string, updateTime: int, body: string)

  const KINDS := 4
  const VIDEO := 4

  function StringPrefix(n: Note): string {
    Itoa(n.id) + "_" + Itoa(n.classId) + "_" + Itoa(n.meetingId) + "_" + Itoa(n.userId) + "_" + Itoa(n.kind) + "_"
  }

  function ToText(n: Note): string {
    StringPrefix(n) + n.key + "_" + Itoa(n.subKey) + "_" + n.updateIP + "_" + Itoa(n.updateTime) + "_" + n.body
  }

  /** NewNoteFromString; None where the source yields no note. */
  function FromText(s: string): Option<Note> {
    if s == "" then None
    else
      var a := Split(s, '_');
      if |a| != 10 then None
      else match (Atoi(a[0]), Atoi(a[1]), Atoi(a[2]), Atoi(a[3]), Atoi(a[4]), Atoi(a[6]), Atoi(a[8]))
        case (Some(id), Some(c), Some(m), Some(u), Some(t), Some(k), Some(time)) =>
          Some(Note(id, c, m, u, t, a[5], k, a[7], time, a[9]))
        case _ => None
  }

  function Fields(n: Note): seq<string> {
    [Itoa(n.id), Itoa(n.classId), Itoa(n.meetingId), Itoa(n.userId), Itoa(n.kind),
     n.key, Itoa(n.subKey), n.updateIP, Itoa(n.updateTime), n.body]
  }

  predicate TextsFree(n: Note, c: char) {
    Free(n.key, c) && Free(n.updateIP, c) && Free(n.body, c)
  }

  lemma FieldsFree(n: Note, c: char)
    requires TextsFree(n, c) && !IsDigit(c) && c != '-'
    ensures AllFree(Fields(n), c)
  {
    ItoaFree(n.id, c);
    ItoaFree(n.classId, c);
    ItoaFree(n.meetingId, c);
    ItoaFree(n.userId, c);
    ItoaFree(n.kind, c);
    ItoaFree(n.subKey, c);
    ItoaFree(n.updateTime, c);
  }

  lemma TenJoined(f: seq<string>)
    requires |f| == 10
    ensures Join(f, "_")
         == (f[0] + "_" + f[1] + "_" + f[2] + "_" + f[3] + "_" + f[4] + "_")
            + f[5] + "_" + f[6] + "_" + f[7] + "_" + f[8] + "_" + f[9]
  {
    assert f[..1] == [f[0]];
    JoinNext(f, 1, "_");
    JoinNext(f, 2, "_");
    JoinNext(f, 3, "_");
    JoinNext(f, 4, "_");
    JoinNext(f, 5, "_");
    JoinNext(f, 6, "_");
    JoinNext(f, 7, "_");
    JoinNext(f, 8, "_");
    JoinNext(f, 9, "_");
    assert f[..10] == f;
  }

  lemma TextIsJoin(n: Note)
    ensures ToText(n) == Join(Fields(n), "_")
  {
    TenJoined(Fields(n));
  }

  /** A note is read back from its text if its texts hold no underscore; else the text is
      no note at all. */
  lemma NoteRoundTrip(n: Note)
    ensures FromText(ToText(n)) == if TextsFree(n, '_') then Some(n) else None
  {
    TextIsJoin(n);
    if TextsFree(n, '_') {
      FieldsFree(n, '_');
      SplitJoin(Fields(n), '_');
      AtoiItoa(n.id);
      AtoiItoa(n.classId);
      AtoiItoa(n.meetingId);
      AtoiItoa(n.userId);
      AtoiItoa(n.kind);
      AtoiItoa(n.subKey);
      AtoiItoa(n.updateTime);
    } else {
      var f := Fields(n);
      assert !Free(f[5], '_') || !Free(f[7], '_') || !Free(f[9], '_');
      PiecesOfJoin(f, '_');
    }
  }

  /** The ten pieces of a note's text, in their order. */
  lemma NotePieces(n: Note)
    requires TextsFree(n, '_')
    ensures Split(ToText(n), '_')
         == [Itoa(n.id), Itoa(n.classId), Itoa(n.meetingId), Itoa(n.userId), Itoa(n.kind), n.key, Itoa(n.subKey),
             n.updateIP, Itoa(n.updateTime), n.body]
  {
    FieldsFree(n, '_');
    TextIsJoin(n);
    SplitJoin(Fields(n), '_');
  }

  /** A note that was read holds no underscore, and no comma if its text held none. */
  lemma ReadNoteIsClean(s: string)
    ensures FromText(s).Some? ==> TextsFree(FromText(s).value, '_')
    ensures FromText(s).Some? && Free(s, ',') ==> TextsFree(FromText(s).value, ',')
  {
    var a := Split(s, '_');
    if FromText(s).Some? {
      assert Free(a[5], '_') && Free(a[7], '_') && Free(a[9], '_');
      if Free(s, ',') {
        SplitKeepsFree(s, '_', ',');
        assert Free(a[5], ',') && Free(a[7], ',') && Free(a[9], ',');
      }
    }
  }

  // ------------------------------------------------------------------ columns

  /** addNoteToDatabase on one column: the text of one more note. */
  function Grown(column: string, text: string): string {
    if |column| > 0 then column + "," + text else text
  }

  function ColumnOf(texts: seq<string>): string {
    if texts == [] then "" else Grown(ColumnOf(texts[..|texts| - 1]), texts[|texts| - 1])
  }

  function TextsOf(notes: seq<Note>): (r: seq<string>)
    ensures |r| == |notes| && forall i :: 0 <= i < |notes| ==> r[i] == ToText(notes[i])
  {
    seq(|notes|, i requires 0 <= i < |notes| => ToText(notes[i]))
  }

  /** The column after these notes were appended. */
  function Column(notes: seq<Note>): string {
    ColumnOf(TextsOf(notes))
  }

  function ReadAll(pieces: seq<string>): (r: seq<Option<Note>>)
    ensures |r| == |pieces| && forall i :: 0 <= i < |pieces| ==> r[i] == FromText(pieces[i])
  {
    seq(|pieces|, i requires 0 <= i < |pieces| => FromText(pieces[i]))
  }

  /** Pieces that are no notes are skipped. */
  function Valid(read: seq<Option<Note>>): seq<Note> {
    if read == [] then []
    else
      var rest := Valid(read[..|read| - 1]);
      match read[|read| - 1]
      case Some(n) => rest + [n]
      case None => rest
  }

  /** preloadUserClassNotes on one column. */
  function Reload(column: string): seq<Note> {
    Valid(ReadAll(Split(column, ',')))
  }

  predicate Storable(n: Note) {
    TextsFree(n, '_') && TextsFree(n, ',')
  }

  predicate AllStorable(notes: seq<Note>) {
    forall i :: 0 <= i < |notes| ==> Storable(notes[i])
  }

  lemma {:induction false} ColumnIsJoin(texts: seq<string>)
    requires forall i :: 0 <= i < |texts| ==> texts[i] != ""
    ensures ColumnOf(texts) == Join(texts, ",")
    ensures texts != [] ==> ColumnOf(texts) != ""
  {
    if texts != [] {
      var k := |texts| - 1;
      ColumnIsJoin(texts[..k]);
      assert texts == texts[..k] + [texts[k]];
      JoinSnoc(texts[..k], texts[k], ",");
    }
  }

  lemma {:induction false} ValidAreRead(read: seq<Option<Note>>)
    ensures forall n :: n in Valid(read) ==> Some(n) in read
  {
    if read != [] {
      var k := |read| - 1;
      ValidAreRead(read[..k]);
      assert read == read[..k] + [read[k]];
    }
  }

  lemma ReloadedAreStorable(column: string)
    ensures forall n :: n in Reload(column) ==> Storable(n)
  {
    var pieces := Split(column, ',');
    ValidAreRead(ReadAll(pieces));
    forall n | n in Reload(column)
      ensures Storable(n)
    {
      assert Some(n) in ReadAll(pieces);
      var i :| 0 <= i < |pieces| && ReadAll(pieces)[i] == Some(n);
      assert Free(pieces[i], ',');
      ReadNoteIsClean(pieces[i]);
    }
  }

  predicate NoCommas(notes: seq<Note>) {
    forall i :: 0 <= i < |notes| ==> TextsFree(notes[i], ',')
  }

  /** The notes without an underscore, in order. */
  function Surviving(notes: seq<Note>): seq<Note> {
    if notes == [] then []
    else
      var rest, n := Surviving(notes[..|notes| - 1]), notes[|notes| - 1];
      if TextsFree(n, '_') then rest + [n] else rest
  }

  lemma {:induction false} SurvivingAreValid(notes: seq<Note>)
    ensures Valid(ReadAll(TextsOf(notes))) == Surviving(notes)
  {
    if notes != [] {
      var k := |notes| - 1;
      SurvivingAreValid(notes[..k]);
      assert TextsOf(notes)[..k] == TextsOf(notes[..k]);
      assert ReadAll(TextsOf(notes))[..k] == ReadAll(TextsOf(notes[..k]));
      NoteRoundTrip(notes[k]);
    }
  }

  lemma TextsAreCommaFree(notes: seq<Note>)
    requires NoCommas(notes)
    ensures AllFree(TextsOf(notes), ',')
  {
    forall i | 0 <= i < |notes|
      ensures Free(TextsOf(notes)[i], ',')
    {
      FieldsFree(notes[i], ',');
      TextIsJoin(notes[i]);
      JoinFree(Fields(notes[i]), "_", ',');
    }
  }

  /** While no note holds a comma, a column reloads as exactly the notes without an
      underscore; the others are skipped. */
  lemma UnderscoredAreSkipped(notes: seq<Note>)
    requires NoCommas(notes)
    ensures Reload(Column(notes)) == Surviving(notes)
  {
    if notes == [] {
      assert Split("", ',') == [""];
      assert ReadAll([""]) == [None];
      assert Valid([None]) == [];
    } else {
      var texts := TextsOf(notes);
      forall i | 0 <= i < |notes|
        ensures texts[i] != ""
      {
        assert ToText(notes[i]) != "";
      }
      ColumnIsJoin(texts);
      TextsAreCommaFree(notes);
      SplitJoin(texts, ',');
      SurvivingAreValid(notes);
    }
  }

  lemma {:induction false} AllSurvive(notes: seq<Note>)
    requires AllStorable(notes)
    ensures Surviving(notes) == notes
  {
    if notes != [] {
      var k := |notes| - 1;
      AllSurvive(notes[..k]);
      assert notes == notes[..k] + [notes[k]];
    }
  }

  /** A column reloads as the notes appended to it, in order, iff no note holds a
      separator in one of its texts. */
  lemma ColumnRoundTrip(notes: seq<Note>)
    ensures Reload(Column(notes)) == notes <==> AllStorable(notes)
  {
    if AllStorable(notes) {
      UnderscoredAreSkipped(notes);
      AllSurvive(notes);
    } else {
      ReloadedAreStorable(Column(notes));
    }
  }

  // ---------------------------------------------------------------- new notes

  /** newNote: key and body are escaped, the key of a video's note in the form that leaves
      underscores; the address is taken as it is. */
  function NewNote(id: int, classId: int, meetingId: int, userId: int, kind: int, key: Bytes, subKey: int,
                   body: Bytes, updateIP: string, updateTime: int): Note {
    Note(id, classId, meetingId, userId, kind, if kind == VIDEO then EscapeForStr64(key) else Escape(key), subKey,
         updateIP, updateTime, Escape(TrimSpace(body)))
  }

  /** A new note can be stored iff the address holds no separator and, for a video, the
      trimmed key holds no underscore. */
  lemma NewNoteStorable(id: int, classId: int, meetingId: int, userId: int, kind: int, key: Bytes, subKey: int,
                        body: Bytes, updateIP: string, updateTime: int)
    ensures var n := NewNote(id, classId, meetingId, userId, kind, key, subKey, body, updateIP, updateTime);
      && (TextsFree(n, ',') <==> Free(updateIP, ','))
      && (TextsFree(n, '_') <==> (kind == VIDEO ==> Free(TrimSpace(key), '_')) && Free(updateIP, '_'))
      && (Storable(n)
          <==> (kind == VIDEO ==> Free(TrimSpace(key), '_')) && Free(updateIP, '_') && Free(updateIP, ','))
  {
    EscapeHasNoSeparators(TrimSpace(body));
    EscapeHasNoSeparators(key);
    EscapedForStr64(key);
  }

  /** A new note has what was given in its own fields, and its texts unescape to what was
      given, trimmed. */
  lemma NewNoteFields(id: int, classId: int, meetingId: int, userId: int, kind: int, key: Bytes, subKey: int,
                      body: Bytes, updateIP: string, updateTime: int)
    ensures var n := NewNote(id, classId, meetingId, userId, kind, key, subKey, body, updateIP, updateTime);
      && n == Note(id, classId, meetingId, userId, kind, n.key, subKey, updateIP, updateTime, n.body)
      && Unescape(n.key) == TrimSpace(key) && Unescape(n.body) == TrimSpace(body)
      && (n.key == if kind == 4 then EscapeForStr64(key) else Escape(key))
  {
    EscapedForStr64(key);
    UnescapeEscape(key);
    UnescapeEscape(TrimSpace(body));
    TrimmedOnce(body);
  }

  lemma SurvivingSnoc(notes: seq<Note>, n: Note)
    ensures Surviving(notes + [n]) == if TextsFree(n, '_') then Surviving(notes) + [n] else Surviving(notes)
  {
    assert (notes + [n])[..|notes|] == notes;
  }

  lemma SkippedAtEnd(notes: seq<Note>, n: Note)
    requires NoCommas(notes) && TextsFree(n, ',') && !TextsFree(n, '_')
    ensures Reload(Column(notes + [n])) == Reload(Column(notes))
  {
    UnderscoredAreSkipped(notes);
    UnderscoredAreSkipped(notes + [n]);
    SurvivingSnoc(notes, n);
  }

  /** A new note on a video whose trimmed key holds an underscore is not among the notes its
      column reloads as, whatever the other notes are. */
  lemma UnderscoredVideoNoteIsLost(notes: seq<Note>, id: int, classId: int, meetingId: int, userId: int, key: Bytes,
                                   subKey: int, body: Bytes, updateIP: string, updateTime: int)
    requires NoCommas(notes) && Free(updateIP, ',') && !Free(TrimSpace(key), '_')
    ensures var n := NewNote(id, classId, meetingId, userId, VIDEO, key, subKey, body, updateIP, updateTime);
      Reload(Column(notes + [n])) == Reload(Column(notes))
  {
    var n := NewNote(id, classId, meetingId, userId, VIDEO, key, subKey, body, updateIP, updateTime);
    NewNoteStorable(id, classId, meetingId, userId, VIDEO, key, subKey, body, updateIP, updateTime);
    SkippedAtEnd(notes, n);
  }

  /** A single new note on a video is kept or lost by its key. */
  lemma OneVideoNote(key: Bytes, n: Note, body: Bytes)
    requires n == NewNote(n.id, n.classId, n.meetingId, n.userId, VIDEO, key, n.subKey, body, n.updateIP, n.updateTime)
    requires Free(n.updateIP, '_') && Free(n.updateIP, ',')
    ensures Reload(Column([n])) == if Free(TrimSpace(key), '_') then [n] else []
  {
    NewNoteStorable(n.id, n.classId, n.meetingId, n.userId, VIDEO, key, n.subKey, body, n.updateIP, n.updateTime);
    UnderscoredAreSkipped([n]);
    SurvivingSnoc([], n);
    assert [] + [n] == [n];
  }

  /** So any note on the video a_b is lost. */
  lemma VideoNoteExample(id: int, classId: int, meetingId: int, userId: int, subKey: int, body: Bytes,
                         updateIP: string, updateTime: int)
    requires Free(updateIP, '_') && Free(updateIP, ',')
    ensures Reload(Column([NewNote(id, classId, meetingId, userId, VIDEO, "a_b", subKey, body, updateIP, updateTime)]))
         == []
  {
    var key := "a_b";
    assert key[1] == '_';
    GraphicIsTight(key);
    OneVideoNote(key, NewNote(id, classId, meetingId, userId, VIDEO, key, subKey, body, updateIP, updateTime), body);
  }

  // ------------------------------------------------------------------ service

  type Slot = (int, int, int)

  function SlotOf(n: Note): Slot {
    (n.userId, n.classId, n.kind)
  }

  /** The notes of one user, class and kind. */
  function Selected(notes: seq<Note>, slot: Slot): seq<Note> {
    if notes == [] then []
    else
      var rest := Selected(notes[..|notes| - 1], slot);
      var n := notes[|notes| - 1];
      if SlotOf(n) == slot && 1 <= n.kind <= KINDS then rest + [n] else rest
  }

  function ColumnAt(columns: map<Slot, string>, slot: Slot): string {
    if slot in columns then columns[slot] else ""
  }

  ghost predicate InOrder(columns: map<Slot, string>, notes: seq<Note>) {
    forall slot :: ColumnAt(columns, slot) == Column(Selected(notes, slot))
  }

  lemma ColumnOfSnoc(texts: seq<string>, x: string)
    ensures ColumnOf(texts + [x]) == Grown(ColumnOf(texts), x)
  {
    assert (texts + [x])[..|texts|] == texts;
  }

  lemma TextsSnoc(notes: seq<Note>, n: Note, x: string)
    requires x == ToText(n)
    ensures TextsOf(notes + [n]) == TextsOf(notes) + [x]
  {}

  lemma ColumnSnoc(notes: seq<Note>, n: Note)
    ensures Column(notes + [n]) == Grown(Column(notes), ToText(n))
  {
    TextsSnoc(notes, n, ToText(n));
    ColumnOfSnoc(TextsOf(notes), ToText(n));
  }

  lemma SelectedSnoc(notes: seq<Note>, n: Note, slot: Slot)
    ensures Selected(notes + [n], slot)
         == if SlotOf(n) == slot && 1 <= n.kind <= KINDS then Selected(notes, slot) + [n] else Selected(notes, slot)
  {
    assert (notes + [n])[..|notes|] == notes;
  }

  /** The column of one slot after one note more. */
  lemma NoteAddedAt(notes: seq<Note>, n: Note, slot: Slot)
    ensures Column(Selected(notes + [n], slot))
         == if SlotOf(n) == slot && 1 <= n.kind <= KINDS
            then Grown(Column(Selected(notes, slot)), ToText(n)) else Column(Selected(notes, slot))
  {
    SelectedSnoc(notes, n, slot);
    ColumnSnoc(Selected(notes, slot), n);
  }

  /** A note of a known kind goes to the end of its own column and changes no other. */
  lemma NoteAdded(columns: map<Slot, string>, notes: seq<Note>, n: Note)
    requires InOrder(columns, notes)
    ensures var grown := columns[SlotOf(n) := Grown(ColumnAt(columns, SlotOf(n)), ToText(n))];
      InOrder(if 1 <= n.kind <= KINDS then grown else columns, notes + [n])
  {
    var x := Grown(ColumnAt(columns, SlotOf(n)), ToText(n));
    var after := if 1 <= n.kind <= KINDS then columns[SlotOf(n) := x] else columns;
    forall slot
      ensures ColumnAt(after, slot) == Column(Selected(notes + [n], slot))
    {
      NoteAddedAt(notes, n, slot);
    }
  }

  /** The notes of a column are those of one user, one class and one kind, of the four kinds. */
  lemma {:induction false} SelectedAre(notes: seq<Note>, user: int, classId: int, kind: int)
    ensures forall n :: n in Selected(notes, (user, classId, kind))
              <==> n in notes && n.userId == user && n.classId == classId && n.kind == kind && 1 <= n.kind <= 4
  {
    if notes != [] {
      var k := |notes| - 1;
      SelectedAre(notes[..k], user, classId, kind);
      assert notes == notes[..k] + [notes[k]];
    }
  }

  class NoteService {
    /** The text columns, by user, class and kind; a missing row reads as empty text. */
    var columns: map<Slot, string>
    /** Every note offered so far. */
    ghost var offered: seq<Note>

    /** Each column holds exactly its own notes, in the order of their coming. */
    ghost predicate Ordered()
      reads this
    {
      InOrder(columns, offered)
    }

    constructor ()
      ensures Ordered() && offered == []
    {
      columns := map[];
      offered := [];
    }

    /** Appends a note to its column. */
    method AddNoteToDatabase(n: Note) returns (ok: bool)
      requires Ordered()
      modifies this
      ensures Ordered() && offered == old(offered) + [n]
      ensures ok <==> 1 <= n.kind <= KINDS
    {
      var index := n.kind - 1;
      NoteAdded(columns, offered, n);
      offered := offered + [n];
      if index < 0 || index >= KINDS {
        return false;
      }
      var l := if SlotOf(n) in columns then columns[SlotOf(n)] else "";
      columns := columns[SlotOf(n) := Grown(l, ToText(n))];
      return true;
    }

    /** Makes a note of what the user gave, and appends it. */
    method AddNote(id: int, classId: int, meetingId: int, userId: int, kind: int, key: Bytes, subKey: int, body: Bytes,
                   updateIP: string, updateTime: int) returns (ok: bool)
      requires Ordered()
      modifies this
      ensures Ordered()
      ensures offered == old(offered)
                + [NewNote(id, classId, meetingId, userId, kind, key, subKey, body, updateIP, updateTime)]
      ensures ok <==> 1 <= kind <= KINDS
    {
      var k := Escape(key);
      if kind == VIDEO {
        k := EscapeForStr64(key);
      }
      ok := AddNoteToDatabase(
        Note(id, classId, meetingId, userId, kind, k, subKey, updateIP, updateTime, Escape(TrimSpace(body))));
    }

    /** The notes of one column, read piece by piece. */
    method PreloadColumn(slot: Slot) returns (notes: seq<Note>)
      requires Ordered()
      ensures notes == Selected(offered, slot) <==> AllStorable(Selected(offered, slot))
      ensures NoCommas(Selected(offered, slot)) ==> notes == Surviving(Selected(offered, slot))
    {
      var l := if slot in columns then columns[slot] else "";
      var arr := Split(l, ',');
      notes := [];
      for j := 0 to |arr|
        invariant notes == Valid(ReadAll(arr)[..j])
      {
        assert ReadAll(arr)[..j + 1][..j] == ReadAll(arr)[..j];
        match FromText(arr[j])
        case Some(n) => notes := notes + [n];
        case None =>
      }
      assert ReadAll(arr)[..|arr|] == ReadAll(arr);
      ColumnRoundTrip(Selected(offered, slot));
      if NoCommas(Selected(offered, slot)) {
        UnderscoredAreSkipped(Selected(offered, slot));
      }
    }
  }
}
