/** The `File` model: a stored file row and its derived attributes. */
module Files {
  import opened Common
  import PhpStrings

  /**
   * A row of `files`.  `tags` holds the names of the file's tags (the
   * `file_tag` relation); `trashed` says the row is soft-deleted.
   */
  datatype File = File(
    id: string,
    userId: string,
    folderId: Option<string>,
    name: string,
    mimeType: string,
    size: int,
    tags: set<string>,
    trashed: bool)

  /** `isInRoot`: the file sits in no folder. */
  predicate IsInRoot(f: File) {
    f.folderId.None?
  }

  /**
   * The `extension` attribute: the last piece of `explode('.', name)` when
   * there is more than one piece, otherwise null.  That is the text after
   * the last dot, and null exactly when the name has no dot.
   */
  function Extension(name: string): (ext: Option<string>)
    ensures ext.None? <==> '.' !in name
    ensures ext.Some? ==> '.' !in ext.value && |ext.value| < |name|
    ensures ext.Some? ==> name[|name| - |ext.value| - 1] == '.'
    ensures ext.Some? ==> name[|name| - |ext.value|..] == ext.value
  {
    var parts := PhpStrings.Explode('.', name);
    PhpStrings.ExplodeShape('.', name);
    if |parts| > 1 then
      var last := parts[|parts| - 1];
      PhpStrings.ImplodeExplode('.', name);
      ImplodeLast('.', parts);
      assert name == PhpStrings.Implode('.', parts[..|parts| - 1]) + ['.'] + last;
      Some(last)
    else
      None
  }

  /** The join of two or more pieces ends with the separator and the last piece. */
  lemma {:induction false} ImplodeLast(sep: char, parts: seq<string>)
    requires |parts| >= 2
    ensures PhpStrings.Implode(sep, parts)
         == PhpStrings.Implode(sep, parts[..|parts| - 1]) + [sep] + parts[|parts| - 1]
    decreases |parts|
  {
    if |parts| > 2 {
      ImplodeLast(sep, parts[1..]);
      assert parts[1..][..|parts| - 2] == parts[..|parts| - 1][1..];
    } else {
      assert parts[..1] == [parts[0]];
    }
  }

  /** Examples: the last extension of a double extension, and a trailing dot. */
  lemma ExtensionExamples()
    ensures Extension("a.tar.gz") == Some("gz")
    ensures Extension("notes.") == Some("")
    ensures Extension("README") == None
  {
    var e := Extension("a.tar.gz");
    assert "a.tar.gz"[5] == '.';
  }

  /** `isImage`: the MIME type begins with `image/`. */
  function IsImage(f: File): (b: bool)
    ensures b <==> |f.mimeType| >= 6 && forall i :: 0 <= i < 6 ==> f.mimeType[i] == "image/"[i]
  {
    PhpStrings.StartsWith(f.mimeType, "image/")
  }

  /** `isVideo`: the MIME type begins with `video/`. */
  function IsVideo(f: File): (b: bool)
    ensures b <==> |f.mimeType| >= 6 && forall i :: 0 <= i < 6 ==> f.mimeType[i] == "video/"[i]
  {
    PhpStrings.StartsWith(f.mimeType, "video/")
  }

  predicate IsPdf(f: File) {
    f.mimeType == "application/pdf"
  }

  /** The three MIME classes never overlap. */
  lemma MimeClassesDisjoint(f: File)
    ensures !(IsImage(f) && IsVideo(f))
    ensures IsPdf(f) ==> !IsImage(f) && !IsVideo(f)
  {
    if IsImage(f) {
      assert f.mimeType[0] == 'i';
    }
    if IsVideo(f) {
      assert f.mimeType[0] == 'v';
    }
  }
}
