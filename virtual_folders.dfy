/**
 * The `VirtualFolder` model: a saved tag query over the owner's files.
 * `getFilesQuery` builds the query one constraint at a time; the model
 * builds the same list of constraints and proves that a file satisfies them
 * exactly when it belongs in the folder.
 */
module VirtualFolders {
  import opened Common
  import opened Files

  /** The `tag_query` JSON object; each key may be missing or null. */
  datatype TagQuery = TagQuery(included: Option<seq<string>>, excluded: Option<seq<string>>, operator: Option<string>)

  /** A row of `virtual_folders`; `tag_query` itself may be null. */
  datatype VirtualFolder = VirtualFolder(
    id: string,
    userId: string,
    name: string,
    tagQuery: Option<TagQuery>,
    sortOrder: string)

  /** `$query['include'] ?? []`. */
  function IncludeTags(v: VirtualFolder): seq<string> {
    if v.tagQuery.Some? then v.tagQuery.value.included.GetOr([]) else []
  }

  /** `$query['exclude'] ?? []`. */
  function ExcludeTags(v: VirtualFolder): seq<string> {
    if v.tagQuery.Some? then v.tagQuery.value.excluded.GetOr([]) else []
  }

  /** `$query['operator'] ?? 'AND'`. */
  function Operator(v: VirtualFolder): string {
    if v.tagQuery.Some? then v.tagQuery.value.operator.GetOr("AND") else "AND"
  }

  /** One `where` of the built query. */
  datatype Constraint =
    | NotTrashed                    // the soft-delete scope of `File`
    | OwnedBy(userId: string)       // where('user_id', ...)
    | HasTag(tag: string)           // whereHas('tags', name = ...)
    | HasAnyTag(tags: seq<string>)  // whereHas('tags', name in ...)
    | HasNoTag(tags: seq<string>)   // whereDoesntHave('tags', name in ...)

  predicate Holds(c: Constraint, f: File) {
    match c
    case NotTrashed => !f.trashed
    case OwnedBy(u) => f.userId == u
    case HasTag(t) => t in f.tags
    case HasAnyTag(ts) => exists i :: 0 <= i < |ts| && ts[i] in f.tags
    case HasNoTag(ts) => forall i :: 0 <= i < |ts| ==> ts[i] !in f.tags
  }

  /** A file is selected by a query when it meets every constraint. */
  predicate Matches(q: seq<Constraint>, f: File) {
    forall i :: 0 <= i < |q| ==> Holds(q[i], f)
  }

  /**
   * The include condition: every include tag under `AND`, at least one
   * under any other operator; no include tags means no condition.
   */
  predicate TagsIncluded(v: VirtualFolder, f: File) {
    || |IncludeTags(v)| == 0
    || (Operator(v) == "AND" && forall t :: t in IncludeTags(v) ==> t in f.tags)
    || (Operator(v) != "AND" && exists t :: t in IncludeTags(v) && t in f.tags)
  }

  /** The exclude condition: none of the exclude tags. */
  predicate TagsNotExcluded(v: VirtualFolder, f: File) {
    forall t :: t in ExcludeTags(v) ==> t !in f.tags
  }

  /** Which files belong in the folder: the owner's, not trashed, meeting both tag conditions. */
  predicate InFolder(v: VirtualFolder, f: File) {
    f.userId == v.userId && !f.trashed && TagsIncluded(v, f) && TagsNotExcluded(v, f)
  }

  /** `getFilesQuery`, without its `orderBy`. */
  method GetFilesQuery(v: VirtualFolder) returns (q: seq<Constraint>)
    ensures forall f :: Matches(q, f) <==> InFolder(v, f)
  {
    var includeTags := IncludeTags(v);
    var excludeTags := ExcludeTags(v);
    var operator := Operator(v);
    q := [NotTrashed, OwnedBy(v.userId)];
    if |includeTags| != 0 {
      if operator == "AND" {
        var i := 0;
        while i < |includeTags|
          invariant 0 <= i <= |includeTags|
          invariant |q| == 2 + i && q[0] == NotTrashed && q[1] == OwnedBy(v.userId)
          invariant forall j :: 2 <= j < |q| ==> q[j] == HasTag(includeTags[j - 2])
        {
          q := q + [HasTag(includeTags[i])];
          i := i + 1;
        }
        forall f | true
          ensures Matches(q, f) <==> f.userId == v.userId && !f.trashed && TagsIncluded(v, f)
        {
          if Matches(q, f) {
            forall t | t in includeTags ensures t in f.tags {
              var j :| 0 <= j < |includeTags| && includeTags[j] == t;
              assert Holds(q[2 + j], f);
            }
            assert Holds(q[0], f) && Holds(q[1], f);
          }
        }
      } else {
        q := q + [HasAnyTag(includeTags)];
        forall f | true
          ensures Matches(q, f) <==> f.userId == v.userId && !f.trashed && TagsIncluded(v, f)
        {
          if Matches(q, f) {
            assert Holds(q[0], f) && Holds(q[1], f) && Holds(q[2], f);
          }
        }
      }
    } else {
      forall f | true
        ensures Matches(q, f) <==> f.userId == v.userId && !f.trashed && TagsIncluded(v, f)
      {
        if Matches(q, f) {
          assert Holds(q[0], f) && Holds(q[1], f);
        }
      }
    }
    ghost var before := q;
    if |excludeTags| != 0 {
      q := q + [HasNoTag(excludeTags)];
      forall f | true
        ensures Matches(q, f) <==> Matches(before, f) && TagsNotExcluded(v, f)
      {
        assert forall i :: 0 <= i < |before| ==> q[i] == before[i];
        if Matches(q, f) {
          assert Holds(q[|before|], f);
        }
      }
    }
  }

  /** With the same tags, `AND` never selects a file that the other operator leaves out. */
  lemma AndNarrowerThanOr(v: VirtualFolder, f: File)
    requires v.tagQuery.Some? && v.tagQuery.value.operator == Some("AND")
    requires InFolder(v, f)
    ensures InFolder(v.(tagQuery := Some(v.tagQuery.value.(operator := Some("OR")))), f)
  {
    var w := v.(tagQuery := Some(v.tagQuery.value.(operator := Some("OR"))));
    assert IncludeTags(w) == IncludeTags(v);
    if |IncludeTags(v)| != 0 {
      assert IncludeTags(v)[0] in IncludeTags(v);
    }
  }

  /** A tag both required (under `AND`) and excluded empties the folder. */
  lemma RequiredAndExcludedIsEmpty(v: VirtualFolder, t: string, f: File)
    requires Operator(v) == "AND" && t in IncludeTags(v) && t in ExcludeTags(v)
    ensures !InFolder(v, f)
  {
  }

  /** Excluding one more tag never lets a file in. */
  lemma ExcludingMoreNeverAdds(v: VirtualFolder, extra: string, f: File)
    requires v.tagQuery.Some?
    requires InFolder(v.(tagQuery := Some(v.tagQuery.value.(excluded := Some(ExcludeTags(v) + [extra])))), f)
    ensures InFolder(v, f)
  {
    var w := v.(tagQuery := Some(v.tagQuery.value.(excluded := Some(ExcludeTags(v) + [extra]))));
    assert IncludeTags(w) == IncludeTags(v) && Operator(w) == Operator(v);
    forall t | t in ExcludeTags(v) ensures t !in f.tags {
      assert t in ExcludeTags(w);
    }
  }

  /** No query at all selects every untrashed file of the owner. */
  lemma NullQuerySelectsAllOwned(v: VirtualFolder, f: File)
    requires v.tagQuery.None?
    ensures InFolder(v, f) <==> f.userId == v.userId && !f.trashed
  {
  }
}
