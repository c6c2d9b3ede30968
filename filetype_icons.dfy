/**
 * The front end's icon choice for a listing entry: a folder gets the folder
 * icon, a file the icon its extension maps to in a fixed table, and any
 * other file the generic file icon.
 */
module FiletypeIcons {
  import opened Common

  /** The icon components the table and the lookup can answer. */
  datatype Icon = Folder | File | FileText | FileImage | FileVideo | FileAudio | FileCode | FileSpreadsheet
                | FileArchive | FileType

  /** The `filetypeIcons` table: lower-case extensions to icons. */
  const Table: map<string, Icon> := map[
    "txt" := FileText, "doc" := FileText, "docx" := FileText, "pdf" := FileType, "rtf" := FileText,
    "md" := FileText,
    "jpg" := FileImage, "jpeg" := FileImage, "png" := FileImage, "gif" := FileImage, "svg" := FileImage,
    "webp" := FileImage,
    "mp4" := FileVideo, "mov" := FileVideo, "avi" := FileVideo, "mkv" := FileVideo, "webm" := FileVideo,
    "mp3" := FileAudio, "wav" := FileAudio, "flac" := FileAudio, "aac" := FileAudio, "ogg" := FileAudio,
    "js" := FileCode, "ts" := FileCode, "vue" := FileCode, "html" := FileCode, "css" := FileCode,
    "json" := FileCode, "php" := FileCode, "py" := FileCode,
    "xls" := FileSpreadsheet, "xlsx" := FileSpreadsheet, "csv" := FileSpreadsheet,
    "zip" := FileArchive, "rar" := FileArchive, "tar" := FileArchive, "gz" := FileArchive, "7z" := FileArchive
  ]

  /**
   * The properties every plain JavaScript object inherits from
   * `Object.prototype`; reading one of them off the table gives a truthy
   * value that is not an icon.
   */
  const PrototypeMembers: set<string> := {
    "constructor", "hasOwnProperty", "isPrototypeOf", "propertyIsEnumerable", "toLocaleString",
    "toString", "valueOf", "__proto__", "__defineGetter__", "__defineSetter__", "__lookupGetter__",
    "__lookupSetter__"
  }

  /** A listing entry: its `type` and its `filetype`, either of which may be absent. */
  datatype Item = Item(kind: Option<string>, filetype: Option<string>)

  predicate IsFolder(item: Item) {
    item.kind == Some("folder")
  }

  /** What `getItemIcon` as written can hand back: an icon, or an inherited member of the table object. */
  datatype Rendered = Component(icon: Icon) | Inherited(member: string)

  /**
   * `getItemIcon` as written: `filetypeIcons[item.filetype]` reads the
   * table's own keys and, on a plain object, the inherited ones too.
   */
  function GetItemIconAsWritten(item: Item): (r: Rendered)
    ensures IsFolder(item) ==> r == Component(Folder)
    ensures r.Inherited? <==> !IsFolder(item) && item.filetype.Some? && item.filetype.value in PrototypeMembers
  {
    KeysAreShort();
    MembersAreLong();
    if IsFolder(item) then Component(Folder)
    else if item.filetype.Some? && item.filetype.value != "" && item.filetype.value in Table then
      Component(Table[item.filetype.value])
    else if item.filetype.Some? && item.filetype.value != "" && item.filetype.value in PrototypeMembers then
      Inherited(item.filetype.value)
    else Component(File)
  }

  /** `getItemIcon` with the lookup kept to the table's own keys. */
  function GetItemIcon(item: Item): (icon: Icon)
    ensures IsFolder(item) ==> icon == Folder
    ensures !IsFolder(item) && item.filetype.Some? && item.filetype.value in Table ==>
              icon == Table[item.filetype.value]
    ensures !IsFolder(item) && (item.filetype.None? || item.filetype.value !in Table) ==> icon == File
  {
    if IsFolder(item) then Folder
    else if item.filetype.Some? && item.filetype.value != "" && item.filetype.value in Table then
      Table[item.filetype.value]
    else File
  }

  /** Every key of the table has one to four characters. */
  lemma KeysAreShort()
    ensures forall ext :: ext in Table ==> 1 <= |ext| <= 4
  {
  }

  /** Every inherited name has at least seven characters, so none is a key of the table. */
  lemma MembersAreLong()
    ensures forall m :: m in PrototypeMembers ==> |m| >= 7
  {
  }

  /** The table holds no folder icon. */
  lemma NoFolderInTable()
    ensures forall ext :: ext in Table ==> Table[ext] != Folder
  {
  }

  /** Only a folder gets the folder icon, whatever its filetype. */
  lemma FolderIconOnlyForFolders(item: Item)
    ensures GetItemIcon(item) == Folder <==> IsFolder(item)
  {
    NoFolderInTable();
  }

  /** No key of the table has an upper-case letter in it. */
  lemma KeysAreLowerCase()
    ensures forall ext :: ext in Table ==> forall i :: 0 <= i < |ext| ==> !('A' <= ext[i] <= 'Z')
  {
  }

  /** The lookup is case-sensitive: an extension with an upper-case letter gets the generic icon. */
  lemma UpperCaseExtensionIsGeneric(item: Item, i: int)
    requires !IsFolder(item) && item.filetype.Some?
    requires 0 <= i < |item.filetype.value| && 'A' <= item.filetype.value[i] <= 'Z'
    ensures GetItemIcon(item) == File
  {
    KeysAreLowerCase();
  }

  /** `JPG` gets the generic icon although `jpg` gets the image icon. */
  lemma JpgIsCaseSensitive()
    ensures GetItemIcon(Item(Some("file"), Some("JPG"))) == File
    ensures GetItemIcon(Item(Some("file"), Some("jpg"))) == FileImage
  {
    UpperCaseExtensionIsGeneric(Item(Some("file"), Some("JPG")), 0);
  }

  /** As written, a file whose filetype is `toString` gets an inherited function instead of an icon. */
  lemma InheritedMemberIsNotAnIcon()
    ensures GetItemIconAsWritten(Item(Some("file"), Some("toString"))) == Inherited("toString")
    ensures GetItemIcon(Item(Some("file"), Some("toString"))) == File
  {
  }

  /** The table's keys and the inherited names are apart, so the two versions differ only on the inherited names. */
  lemma AsWrittenAgrees(item: Item)
    requires IsFolder(item) || item.filetype.None? || item.filetype.value !in PrototypeMembers
    ensures GetItemIconAsWritten(item) == Component(GetItemIcon(item))
  {
  }
}
