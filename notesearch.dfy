/** `find_note_having` as a specification: which predicate result it returns
    and which notes it deletes, for the note list the service returned. The
    predicate's Python truthiness is `Some` (truthy, with the value) or `None`. */
module NoteSearch {
  import opened Wrappers
  import opened Seqs
  import opened Records

  /** One entry of `all_results`: a note and what the predicate made of it. */
  datatype Hit<R> = Hit(note: Note, result: R)

  predicate IsMatch<R>(pred: string -> Option<R>, note: Note)
  {
    pred(note.content).Some?
  }

  function Matching<R>(pred: string -> Option<R>): Note -> bool
  {
    (n: Note) => IsMatch(pred, n)
  }

  /** Every note the predicate answers, in scan order, with its answer. */
  function Hits<R>(notes: seq<Note>, pred: string -> Option<R>): (hs: seq<Hit<R>>)
    ensures |hs| <= |notes|
  {
    if notes == [] then []
    else
      (match pred(notes[0].content)
       case Some(v) => [Hit(notes[0], v)]
       case None => []) + Hits(notes[1..], pred)
  }

  function NotesOf<R>(hs: seq<Hit<R>>): (ns: seq<Note>)
  {
    seq(|hs|, k requires 0 <= k < |hs| => hs[k].note)
  }

  /** What `find_note_having` returns: the first hit's value, or with
      `keepOnlyLast` the last hit's value; None when nothing matches. */
  function Search<R>(notes: seq<Note>, pred: string -> Option<R>, keepOnlyLast: bool): (r: Option<R>)
  {
    var hs := Hits(notes, pred);
    if hs == [] then None
    else if keepOnlyLast then Some(hs[|hs| - 1].result)
    else Some(hs[0].result)
  }

  /** The notes `find_note_having` deletes, in the order it deletes them. */
  function Doomed<R>(notes: seq<Note>, pred: string -> Option<R>, keepOnlyLast: bool): (ns: seq<Note>)
  {
    var hs := Hits(notes, pred);
    if keepOnlyLast && hs != [] then NotesOf(hs[..|hs| - 1]) else []
  }

  function IdsOf(notes: seq<Note>): set<string>
  {
    set k | 0 <= k < |notes| :: notes[k].id
  }

  function Kept(deleted: seq<Note>): Note -> bool
  {
    (n: Note) => n.id !in IdsOf(deleted)
  }

  /** The lead's notes once the notes in `deleted` are gone (notes are deleted by id). */
  function Surviving(notes: seq<Note>, deleted: seq<Note>): seq<Note>
  {
    Filter(notes, Kept(deleted))
  }

  /** Note ids are unique within one lead's note list. */
  predicate DistinctIds(notes: seq<Note>)
  {
    forall i, j :: 0 <= i < j < |notes| ==> notes[i].id != notes[j].id
  }

  // ---------------------------------------------------------------------
  // Facts about Hits

  lemma {:induction false} HitsConcat<R>(a: seq<Note>, b: seq<Note>, pred: string -> Option<R>)
    ensures Hits(a + b, pred) == Hits(a, pred) + Hits(b, pred)
  {
    if a == [] {
      assert a + b == b;
    } else {
      assert (a + b)[0] == a[0];
      assert (a + b)[1..] == a[1..] + b;
      HitsConcat(a[1..], b, pred);
    }
  }

  lemma {:induction false} HitNotesAreMatches<R>(notes: seq<Note>, pred: string -> Option<R>)
    ensures NotesOf(Hits(notes, pred)) == Filter(notes, Matching(pred))
  {
    if notes != [] {
      HitNotesAreMatches(notes[1..], pred);
      var hs, tail := Hits(notes, pred), Hits(notes[1..], pred);
      if pred(notes[0].content).Some? {
        assert hs == [Hit(notes[0], pred(notes[0].content).value)] + tail;
        assert NotesOf(hs) == [notes[0]] + NotesOf(tail);
      } else {
        assert hs == tail;
      }
    }
  }

  /** Hits of the notes kept by a filter are the hits whose note it keeps. */
  lemma {:induction false} HitsOfFiltered<R>(notes: seq<Note>, keep: Note -> bool, pred: string -> Option<R>)
    ensures Hits(Filter(notes, keep), pred) == Filter(Hits(notes, pred), OnNote(keep))
  {
    if notes != [] {
      var head := if keep(notes[0]) then [notes[0]] else [];
      assert Filter(notes, keep) == head + Filter(notes[1..], keep);
      HitsConcat(head, Filter(notes[1..], keep), pred);
      HitsOfFiltered(notes[1..], keep, pred);
      var headHits := Hits([notes[0]], pred);
      assert [notes[0]][1..] == [];
      assert Hits(notes, pred) == headHits + Hits(notes[1..], pred) by {
        assert notes == [notes[0]] + notes[1..];
        HitsConcat([notes[0]], notes[1..], pred);
      }
      FilterConcat(headHits, Hits(notes[1..], pred), OnNote(keep));
    }
  }

  function OnNote<R>(keep: Note -> bool): Hit<R> -> bool
  {
    (h: Hit<R>) => keep(h.note)
  }

  /** `Hits` finds nothing exactly when no note matches. */
  lemma {:induction false} NoHitsIff<R>(notes: seq<Note>, pred: string -> Option<R>)
    ensures Hits(notes, pred) == [] <==> forall i :: 0 <= i < |notes| ==> pred(notes[i].content).None?
  {
    HitNotesAreMatches(notes, pred);
    FilterHead(notes, Matching(pred));
    assert |NotesOf(Hits(notes, pred))| == |Hits(notes, pred)|;
  }

  /** No two hits are about notes with the same id. */
  predicate HitIdsDistinct<R>(hs: seq<Hit<R>>)
  {
    forall i, j :: 0 <= i < j < |hs| ==> hs[i].note.id != hs[j].note.id
  }

  lemma HitsDistinct<R>(notes: seq<Note>, pred: string -> Option<R>)
    requires DistinctIds(notes)
    ensures HitIdsDistinct(Hits(notes, pred))
  {
    HitNotesAreMatches(notes, pred);
    var idx := FilterSelects(notes, Matching(pred));
    var hs := Hits(notes, pred);
    forall i, j | 0 <= i < j < |hs| ensures hs[i].note.id != hs[j].note.id {
      assert NotesOf(hs)[i] == notes[idx[i]] && NotesOf(hs)[j] == notes[idx[j]];
    }
  }

  // ---------------------------------------------------------------------
  // The two modes of find_note_having

  /** Without `keepOnlyLast`: the value for the first matching note in list
      order, and nothing is deleted. */
  lemma FirstMatchMode<R>(notes: seq<Note>, pred: string -> Option<R>, i: nat)
    requires i < |notes| && pred(notes[i].content).Some?
    requires forall j :: 0 <= j < i ==> pred(notes[j].content).None?
    ensures Search(notes, pred, false) == pred(notes[i].content)
    ensures Doomed(notes, pred, false) == []
  {
    assert notes == notes[..i] + notes[i..];
    HitsConcat(notes[..i], notes[i..], pred);
    NoHitsIff(notes[..i], pred);
    assert Hits(notes[i..], pred)[0] == Hit(notes[i], pred(notes[i].content).value);
  }

  /** With `keepOnlyLast`, when the note at `i` is the last match: the value
      for that note, and the deletions are the earlier matching notes, in
      list order, one fewer than the matches. */
  lemma KeepLastMode<R>(notes: seq<Note>, pred: string -> Option<R>, i: nat)
    requires i < |notes| && pred(notes[i].content).Some?
    requires forall j :: i < j < |notes| ==> pred(notes[j].content).None?
    ensures Search(notes, pred, true) == pred(notes[i].content)
    ensures Doomed(notes, pred, true) == Filter(notes[..i], Matching(pred))
    ensures |Doomed(notes, pred, true)| == |Hits(notes, pred)| - 1
  {
    var before, at, after := notes[..i], [notes[i]], notes[i + 1..];
    assert notes == before + at + after;
    HitsConcat(before + at, after, pred);
    HitsConcat(before, at, pred);
    NoHitsIff(after, pred);
    assert at[1..] == [];
    var hs := Hits(notes, pred);
    assert hs == Hits(before, pred) + [Hit(notes[i], pred(notes[i].content).value)];
    assert hs[..|hs| - 1] == Hits(before, pred);
    HitNotesAreMatches(before, pred);
  }

  /** When no note matches, nothing is found and nothing is deleted, in either mode. */
  lemma NoMatchMode<R>(notes: seq<Note>, pred: string -> Option<R>, keepOnlyLast: bool)
    requires forall j :: 0 <= j < |notes| ==> pred(notes[j].content).None?
    ensures Search(notes, pred, keepOnlyLast) == None
    ensures Doomed(notes, pred, keepOnlyLast) == []
  {
    NoHitsIff(notes, pred);
  }

  /** In either mode a value is found exactly when some note matches. */
  lemma FoundIffSomeMatch<R>(notes: seq<Note>, pred: string -> Option<R>, keepOnlyLast: bool)
    ensures Search(notes, pred, keepOnlyLast).Some? <==>
      exists j :: 0 <= j < |notes| && pred(notes[j].content).Some?
  {
    NoHitsIff(notes, pred);
  }

  /** The deduplication invariant: after a `keepOnlyLast` call that found a
      match, the surviving notes hold exactly one match, the last one, and
      every note that did not match survives. */
  lemma KeepLastLeavesOneMatch<R>(notes: seq<Note>, pred: string -> Option<R>)
    requires DistinctIds(notes)
    requires Hits(notes, pred) != []
    ensures var hs := Hits(notes, pred);
      Hits(Surviving(notes, Doomed(notes, pred, true)), pred) == [hs[|hs| - 1]]
    ensures forall i :: 0 <= i < |notes| && pred(notes[i].content).None? ==>
      notes[i] in Surviving(notes, Doomed(notes, pred, true))
  {
    var hs := Hits(notes, pred);
    var doomed := Doomed(notes, pred, true);
    HitsOfFiltered(notes, Kept(doomed), pred);
    HitsDistinct(notes, pred);
    OnlyLastKept(hs);
    FilterMembers(notes, Kept(doomed));
    forall i | 0 <= i < |notes| && pred(notes[i].content).None?
      ensures Kept(doomed)(notes[i])
    {
      NonMatchKept(notes, pred, i);
    }
  }

  lemma OnlyLastKept<R>(hs: seq<Hit<R>>)
    requires hs != [] && HitIdsDistinct(hs)
    ensures Filter(hs, OnNote(Kept(NotesOf(hs[..|hs| - 1])))) == [hs[|hs| - 1]]
  {
    var n := |hs|;
    var doomed := NotesOf(hs[..n - 1]);
    var ids := IdsOf(doomed);
    EarlierIdsDoomed(hs, n - 1);
    LastIdNotDoomed(hs);
    assert hs == hs[..n - 1] + [hs[n - 1]];
    FilterOnlyLast(hs[..n - 1], hs[n - 1], OnNote(Kept(doomed)));
  }

  lemma EarlierIdsDoomed<R>(hs: seq<Hit<R>>, m: nat)
    requires m <= |hs|
    ensures forall k :: 0 <= k < m ==> hs[k].note.id in IdsOf(NotesOf(hs[..m]))
  {
    var doomed := NotesOf(hs[..m]);
    forall k | 0 <= k < m ensures hs[k].note.id in IdsOf(doomed) {
      assert doomed[k] == hs[k].note;
    }
  }

  lemma LastIdNotDoomed<R>(hs: seq<Hit<R>>)
    requires hs != [] && HitIdsDistinct(hs)
    ensures hs[|hs| - 1].note.id !in IdsOf(NotesOf(hs[..|hs| - 1]))
  {
    var n := |hs|;
    var doomed := NotesOf(hs[..n - 1]);
    forall k | 0 <= k < |doomed| ensures doomed[k].id != hs[n - 1].note.id {
      assert doomed[k] == hs[k].note;
    }
  }

  lemma NonMatchKept<R>(notes: seq<Note>, pred: string -> Option<R>, i: nat)
    requires DistinctIds(notes)
    requires i < |notes| && pred(notes[i].content).None?
    ensures Kept(Doomed(notes, pred, true))(notes[i])
  {
    var hs := Hits(notes, pred);
    var doomed := Doomed(notes, pred, true);
    HitNotesAreMatches(notes, pred);
    FilterMembers(notes, Matching(pred));
    forall k | 0 <= k < |doomed| ensures doomed[k].id != notes[i].id {
      var d := doomed[k];
      assert d == NotesOf(hs)[k];
      assert d in notes && IsMatch(pred, d);
      var j :| 0 <= j < |notes| && notes[j] == d;
      assert j != i;
    }
  }

  /** Deduplication is idempotent: a second `keepOnlyLast` call on the
      surviving notes deletes nothing and finds the same value. */
  lemma KeepLastIdempotent<R>(notes: seq<Note>, pred: string -> Option<R>)
    requires DistinctIds(notes)
    ensures var survivors := Surviving(notes, Doomed(notes, pred, true));
      Doomed(survivors, pred, true) == [] &&
      Search(survivors, pred, true) == Search(notes, pred, true)
  {
    var doomed := Doomed(notes, pred, true);
    if Hits(notes, pred) == [] {
      HitsOfFiltered(notes, Kept(doomed), pred);
    } else {
      KeepLastLeavesOneMatch(notes, pred);
    }
  }

  // ---------------------------------------------------------------------
  // Steps of the scan loop

  lemma HitsStep<R>(notes: seq<Note>, i: nat, pred: string -> Option<R>)
    requires i < |notes|
    ensures Hits(notes[..i + 1], pred) == Hits(notes[..i], pred) +
      (match pred(notes[i].content) case Some(v) => [Hit(notes[i], v)] case None => [])
  {
    assert notes[..i + 1] == notes[..i] + [notes[i]];
    HitsConcat(notes[..i], [notes[i]], pred);
    assert [notes[i]][1..] == [];
  }

  lemma FirstHitAt<R>(notes: seq<Note>, i: nat, pred: string -> Option<R>)
    requires i < |notes| && pred(notes[i].content).Some?
    requires Hits(notes[..i], pred) == []
    ensures Search(notes, pred, false) == pred(notes[i].content)
    ensures Doomed(notes, pred, false) == []
  {
    NoHitsIff(notes[..i], pred);
    FirstMatchMode(notes, pred, i);
  }

  /** Two notes "A" and one "B", with a predicate that answers "A": the first
      mode deletes nothing, the second deletes only the first "A". */
  lemma DuplicateNoteExample()
    ensures var notes := [Note("1", "A"), Note("2", "A"), Note("3", "B")];
      var pred := (c: string) => if c == "A" then Some(c) else None;
      Search(notes, pred, false) == Some("A") && Doomed(notes, pred, false) == [] &&
      Search(notes, pred, true) == Some("A") && Doomed(notes, pred, true) == [Note("1", "A")]
  {
    var notes := [Note("1", "A"), Note("2", "A"), Note("3", "B")];
    var pred := (c: string) => if c == "A" then Some(c) else None;
    assert notes[1..] == [Note("2", "A"), Note("3", "B")];
    assert notes[1..][1..] == [Note("3", "B")];
    assert notes[1..][1..][1..] == [];
  }

  /** Matches "A1" and "A3" around a non-match "B", with a predicate that
      answers the content of notes starting with 'A': the first mode returns
      "A1", the second returns "A3" and deletes only the note holding "A1". */
  lemma DistinctMatchesExample()
    ensures var notes := [Note("1", "A1"), Note("2", "B"), Note("3", "A3")];
      var pred := (c: string) => if |c| > 0 && c[0] == 'A' then Some(c) else None;
      Search(notes, pred, false) == Some("A1") && Doomed(notes, pred, false) == [] &&
      Search(notes, pred, true) == Some("A3") && Doomed(notes, pred, true) == [Note("1", "A1")]
  {
    var notes := [Note("1", "A1"), Note("2", "B"), Note("3", "A3")];
    var pred := (c: string) => if |c| > 0 && c[0] == 'A' then Some(c) else None;
    assert notes[1..] == [Note("2", "B"), Note("3", "A3")];
    assert notes[1..][1..] == [Note("3", "A3")];
    assert notes[1..][1..][1..] == [];
  }
}
