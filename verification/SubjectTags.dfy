/** The data-subject tags recorded on an event's metadata. */
module SubjectTags {
  import opened Events
  import opened FieldEncryption

  /** Derives an event's subjects from its type, its plaintext payload and its metadata. */
  type Tagger = (string, Json, Metadata) -> seq<string>

  /** Empty ids dropped, duplicates removed, first occurrences kept in order. */
  function Clean(ids: seq<string>): seq<string> {
    if ids == [] then []
    else
      var front, last := Clean(ids[..|ids| - 1]), ids[|ids| - 1];
      if last == "" || last in front then front else front + [last]
  }

  method CleanSubjects(ids: seq<string>) returns (out: seq<string>)
    ensures out == Clean(ids)
  {
    out := [];
    var seen: set<string> := {};
    for i := 0 to |ids|
      invariant out == Clean(ids[..i])
      invariant forall s :: s in seen <==> s in out
    {
      assert ids[..i + 1][..i] == ids[..i];
      if ids[i] != "" && ids[i] !in seen {
        seen := seen + {ids[i]};
        out := out + [ids[i]];
      }
    }
    assert ids[..|ids|] == ids;
  }

  /** Cleaning keeps exactly the non-empty ids, each once. */
  lemma {:induction false} CleanMeans(ids: seq<string>)
    ensures forall s :: s in Clean(ids) <==> s in ids && s != ""
    ensures |Clean(ids)| == |set s | s in Clean(ids)|
  {
    if ids != [] {
      var front, last := ids[..|ids| - 1], ids[|ids| - 1];
      CleanMeans(front);
      assert ids == front + [last];
      if last != "" && last !in Clean(front) {
        assert (set s | s in Clean(ids)) == (set s | s in Clean(front)) + {last};
      }
    }
  }

  /** Adds subjects to the tags already there. */
  function SetSubjectTags(m: Metadata, subjects: seq<string>): Metadata {
    var merged := Clean(TagsOf(m) + subjects);
    if merged == [] then m else m.(subjects := NameList(merged))
  }

  /** Replaces whatever tags are there. */
  function ReplaceSubjectTags(m: Metadata, subjects: seq<string>): Metadata {
    var bare := m.(subjects := NoNames);
    if subjects == [] then bare else SetSubjectTags(bare, subjects)
  }

  /** Under the default policy the recorded tags are the tagger's, whatever the caller supplied. */
  lemma ReplacedTagsAreTheTaggers(m: Metadata, subjects: seq<string>, s: string)
    ensures s in TagsOf(ReplaceSubjectTags(m, subjects)) <==> s in subjects && s != ""
  {
    CleanMeans([] + subjects);
    assert [] + subjects == subjects;
  }
}
