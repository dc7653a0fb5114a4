/**
 * The file-entry store: the ordered sequence of imported mesh files and their
 * two free-text annotations, the entry list that an import builds, the
 * lookup by name, the single-cell edit and the records an export writes.
 */
module Store {
  import opened Wrappers

  /** A browser `File` chosen in the import dialog: its name, and an opaque identity standing for its contents. */
  datatype FileHandle = FileHandle(name: string, id: nat)

  /**
   * One imported file. `classLabel` holds the source's `class` property
   * (`class` is a reserved word in Dafny).
   */
  datatype Entry = Entry(fileName: string, handle: FileHandle, problem: string, classLabel: string)

  /** The two annotation fields an edit may target. */
  datatype Field = Problem | Class

  /** The entries `handleImport` builds from the chosen files: one per file, in the chosen order, annotations empty. */
  function EntriesOf(chosen: seq<FileHandle>): (r: seq<Entry>)
    ensures |r| == |chosen|
    ensures forall i :: 0 <= i < |chosen| ==> r[i] == Entry(chosen[i].name, chosen[i], "", "")
  {
    if chosen == [] then []
    else [Entry(chosen[0].name, chosen[0], "", "")] + EntriesOf(chosen[1..])
  }

  /** The value of one annotation field of an entry. */
  function Get(e: Entry, field: Field): string {
    match field
    case Problem => e.problem
    case Class => e.classLabel
  }

  /** The entry with one annotation field replaced. */
  function With(e: Entry, field: Field, value: string): (r: Entry)
    ensures Get(r, field) == value
    ensures forall other: Field :: other != field ==> Get(r, other) == Get(e, other)
    ensures r.fileName == e.fileName && r.handle == e.handle
  {
    match field
    case Problem => e.(problem := value)
    case Class => e.(classLabel := value)
  }

  /** The store after `handleInputChange(index, field, value)`: a point update of one cell. */
  function SetField(files: seq<Entry>, index: nat, field: Field, value: string): (r: seq<Entry>)
    requires index < |files|
    ensures |r| == |files|
    ensures Get(r[index], field) == value
    ensures r[index].fileName == files[index].fileName && r[index].handle == files[index].handle
    ensures forall other: Field :: other != field ==> Get(r[index], other) == Get(files[index], other)
    ensures forall j :: 0 <= j < |files| && j != index ==> r[j] == files[j]
  {
    files[index := With(files[index], field, value)]
  }

  /** Writing the same value into the same cell twice is the same as writing it once. */
  lemma SetFieldIdempotent(files: seq<Entry>, index: nat, field: Field, value: string)
    requires index < |files|
    ensures SetField(SetField(files, index, field, value), index, field, value) == SetField(files, index, field, value)
  {
  }

  /** Writing a cell's previous value back undoes an edit. */
  lemma SetFieldUndo(files: seq<Entry>, index: nat, field: Field, value: string)
    requires index < |files|
    ensures SetField(SetField(files, index, field, value), index, field, Get(files[index], field)) == files
  {
  }

  /** Edits of two different cells do not interfere: either order gives the same store. */
  lemma SetFieldCommutes(files: seq<Entry>, i: nat, f: Field, v: string, j: nat, g: Field, w: string)
    requires i < |files| && j < |files|
    requires i != j || f != g
    ensures SetField(SetField(files, i, f, v), j, g, w) == SetField(SetField(files, j, g, w), i, f, v)
  {
  }

  /**
   * The position `Array.prototype.find` stops at when looking for `name`:
   * the first entry carrying that name, or None when there is none.
   */
  function FindFirst(files: seq<Entry>, name: string): (r: Option<nat>)
    ensures r.Some? ==> r.value < |files| && files[r.value].fileName == name
    ensures r.Some? ==> forall j :: 0 <= j < r.value ==> files[j].fileName != name
    ensures r.None? <==> forall j :: 0 <= j < |files| ==> files[j].fileName != name
  {
    if files == [] then None
    else if files[0].fileName == name then Some(0)
    else
      match FindFirst(files[1..], name)
      case None => None
      case Some(i) => Some(i + 1)
  }

  /** After an import, looking up the first chosen file's name finds the first entry. */
  lemma FindFirstAfterImport(chosen: seq<FileHandle>)
    requires chosen != []
    ensures FindFirst(EntriesOf(chosen), chosen[0].name) == Some(0)
  {
  }

  /** An edit never changes which entry a name lookup finds. */
  lemma FindFirstAfterEdit(files: seq<Entry>, index: nat, field: Field, value: string, name: string)
    requires index < |files|
    ensures FindFirst(SetField(files, index, field, value), name) == FindFirst(files, name)
  {
    var after := SetField(files, index, field, value);
    FindFirstUnique(after, name, FindFirst(files, name));
  }

  /** The properties FindFirst promises determine its result. */
  lemma FindFirstUnique(files: seq<Entry>, name: string, r: Option<nat>)
    requires r.Some? ==> r.value < |files| && files[r.value].fileName == name
    requires r.Some? ==> forall j :: 0 <= j < r.value ==> files[j].fileName != name
    requires r.None? ==> forall j :: 0 <= j < |files| ==> files[j].fileName != name
    ensures FindFirst(files, name) == r
  {
  }

  /**
   * One element of the exported JSON array. The browser serialises the
   * `fileObject` property of a `File` as an empty object, so an exported
   * element carries no data beyond these three strings.
   */
  datatype Record = Record(fileName: string, problem: string, classLabel: string)

  /** The name of the downloaded export. */
  const ExportName: string := "annotated_items.json"

  /** The array `handleSave` serialises: every entry, in store order, with its current fields. */
  function Records(files: seq<Entry>): (r: seq<Record>)
    ensures |r| == |files|
    ensures forall i :: 0 <= i < |files| ==>
      r[i].fileName == files[i].fileName && r[i].problem == files[i].problem && r[i].classLabel == files[i].classLabel
  {
    if files == [] then []
    else [Record(files[0].fileName, files[0].problem, files[0].classLabel)] + Records(files[1..])
  }

  /** Exporting right after an import writes the chosen names, in order, with empty annotations. */
  lemma RecordsAfterImport(chosen: seq<FileHandle>)
    ensures |Records(EntriesOf(chosen))| == |chosen|
    ensures forall i :: 0 <= i < |chosen| ==> Records(EntriesOf(chosen))[i] == Record(chosen[i].name, "", "")
  {
  }

  /** An export after an edit carries the edited value and nothing else changed. */
  lemma RecordsAfterEdit(files: seq<Entry>, index: nat, field: Field, value: string)
    requires index < |files|
    ensures |Records(SetField(files, index, field, value))| == |files|
    ensures forall j :: 0 <= j < |files| && j != index ==>
      Records(SetField(files, index, field, value))[j] == Records(files)[j]
    ensures field == Problem ==>
      Records(SetField(files, index, field, value))[index] == Records(files)[index].(problem := value)
    ensures field == Class ==>
      Records(SetField(files, index, field, value))[index] == Records(files)[index].(classLabel := value)
  {
  }
}
