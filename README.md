# Mesh annotation workspace: a Dafny model of its state machine

The application imports a batch of STL mesh files, lets the user preview one
of them in a 3D renderer, attach two free-text annotations ("problem" and
"class") to each file in a side pane, and download the annotations as
`annotated_items.json`. Its only real logic is the workspace state that the
root `App` component owns and lends to the toolbar (`Header`) and the editor
pane (`DetailPane`). This project models that state and its handlers and
proves what each handler does to it.

Layout:

- `wrappers.dfy`, module `Wrappers`: the `Option` type, standing for `T | null`.
- `store.dfy`, module `Store`: entries, the entry list an import builds
  (`files.map`), lookup by name (`find`), the single-cell edit, and the records
  an export serialises.
- `accordion.dfy`, module `Accordion`: the editor pane's per-name expand flags.
- `loading.dfy`, module `Loading`: binary read results and what a series of
  read completions leaves on screen.
- `workspace.dfy`, module `App`: class `Workspace`, with one field per piece of
  state and one method per handler. Four client methods at the end replay whole
  sessions: import, edit and export; re-import; the read race; and remounting
  the pane.

Modelling decisions:

- A chosen browser `File` is a `FileHandle(name, id)`. The `id` stands for the
  file's contents, which the model never inspects.
- Reading a file is split into two steps. `LoadFile` starts a read and
  appends the handle to `pending`. `CompleteRead(k, result)` runs the `onload`
  callback of any pending read, in any order. The read result is a parameter:
  `Binary(bytes)` for an `ArrayBuffer`, `Other` for anything else. So
  "the last read to complete wins" follows directly, and `ReadRaceScenario`
  shows the renderer holding A's mesh while B is selected. The model keeps this
  behaviour as written. It does not discard completions whose file is no
  longer selected.
- Names are not checked for uniqueness on import. Where two entries share a
  name, lookup resolves to the FIRST one, as `Array.prototype.find` does, and
  the later entry is never selected by name.
- `class` is a reserved word in Dafny, so the entry field is `classLabel`. The
  edited field is `Field.Problem` or `Field.Class`.
- The accordion flags are local state of `DetailPane`. `App` mounts
  `DetailPane` only while the pane flag is set (src/scripts/app.tsx:75), and a
  React component's local state is destroyed when it unmounts. So hiding the
  pane also clears `expanded`, and `Valid()` states that a hidden pane has
  none. `ToggleAccordion` requires a visible pane, because its handler exists
  only then. `showDetailPane` itself touches only the flag. The clearing is
  the effect of unmounting.
- `handleInputChange` indexes the store with an index that always comes from
  `files.map`. It crashes on an index outside the store. `SetAnnotation`
  therefore requires `index < |files|`.
- The renderer is mounted when `modelData` is non-null. An empty `ArrayBuffer`
  is truthy in JavaScript, so even zero bytes are shown.

## Model

| member | source | states |
|---|---|---|
| Store.EntriesOf | src/components/Header.tsx:56-61 | exactly one entry per chosen file, in the chosen order; each has the file's name, the file itself as handle, and empty `problem` and `class` |
| Store.With | src/components/DetailPane.tsx:21 | writing one field of an entry sets that field to the value and keeps the other field, the name and the handle |
| Store.SetField | src/components/DetailPane.tsx:20-22 | an edit keeps the store's length and sets cell (index, field) to the value; at that index the name, the handle and the other field are kept, and every other entry is unchanged |
| Store.SetFieldIdempotent | src/components/DetailPane.tsx:21 | applying the same edit twice gives the same store as applying it once |
| Store.SetFieldUndo | src/components/DetailPane.tsx:20-22 | writing a cell's previous value back restores the original store exactly |
| Store.SetFieldCommutes | src/components/DetailPane.tsx:20-22 | edits of two different cells give the same store in either order |
| Store.FindFirst | src/components/Header.tsx:75 | the lookup returns the position of the first entry carrying the name; it returns none exactly when no entry carries it |
| Store.FindFirstUnique | src/components/Header.tsx:75 | any position satisfying the first-match properties is the lookup's own answer |
| Store.FindFirstAfterImport | src/components/Header.tsx:62-67 | right after an import, looking up the first chosen name finds entry 0 |
| Store.FindFirstAfterEdit | src/components/DetailPane.tsx:20-22 | an annotation edit never changes what a name lookup finds |
| Store.Records | src/components/Header.tsx:93 | the exported array has one element per entry, in store order, each carrying that entry's current name, problem and class |
| Store.RecordsAfterImport | src/components/Header.tsx:56-62 | exporting right after an import writes the chosen names, in order, with empty annotations |
| Store.RecordsAfterEdit | src/components/Header.tsx:92-99 | exporting after an edit writes the new value into that one cell; every other exported element and field is as before |
| Accordion.IsExpanded | src/components/DetailPane.tsx:49 | a name with no stored flag reads as closed; a stored flag reads as itself |
| Accordion.Toggle | src/components/DetailPane.tsx:30-33 | the flag for the name becomes the negation of its old value, with a missing key counting as closed; every other key keeps its presence and value |
| Accordion.ToggleTwice | src/components/DetailPane.tsx:32 | toggling the same name twice shows every accordion as it was |
| Accordion.ToggleCommutes | src/components/DetailPane.tsx:30-33 | toggles of two different names give the same map in either order |
| Loading.Publish | src/components/Header.tsx:85-88 | a completed read replaces the mesh bytes only when its result is binary; otherwise the bytes stay |
| Loading.AfterCompletions | src/scripts/app.tsx:28-31 | running successive `onload` callbacks: with no binary result the old bytes stay, and a binary last completion decides the mesh |
| Loading.LastBinary | src/scripts/app.tsx:28-31 | the reference answer for a series of completions: none exactly when no result is binary; otherwise the bytes at a binary position after which every result is non-binary |
| Loading.LastCompletedWins | src/scripts/app.tsx:25-33 | after any series of completions, the mesh bytes are those of the last binary completion; they are the old bytes if there is none |
| App.Workspace.Valid | src/components/DetailPane.tsx:15 | any accordion state is possible while the pane is mounted; a hidden pane holds none, because its local state is discarded on unmount |
| App.Workspace.constructor | src/scripts/app.tsx:14-19 | the session starts with no files, no selection, no mesh, the pane hidden, no accordion state and no reads in flight |
| App.Workspace.HandleModelLoad | src/scripts/app.tsx:21-23 | the given bytes become the mesh; nothing else changes |
| App.Workspace.LoadFile | src/components/Header.tsx:82-84 | starting a read adds that file to the reads in flight and changes nothing else |
| App.Workspace.CompleteRead | src/components/Header.tsx:85-89 | the completed read leaves the in-flight list; the mesh becomes its bytes if it is binary and is kept otherwise; nothing else changes |
| App.Workspace.Import | src/components/Header.tsx:52-70 | the store becomes exactly the freshly built entries, with no merge; a non-empty import selects the first file's name and starts a read of the first file; an empty one leaves the selection and the reads unchanged |
| App.Workspace.Select | src/components/Header.tsx:74-80 | on a hit, the name becomes the selection and a read of the first matching entry's file starts; on a miss, no state changes |
| App.Workspace.SetAnnotation | src/components/DetailPane.tsx:18-25 | the store becomes the one-cell edit of the old store; selection, mesh, pane and reads are untouched |
| App.Workspace.ToggleAccordion | src/components/DetailPane.tsx:28-37 | the name's accordion flag is negated, then the name is forwarded to the selection handler with that handler's hit and miss behaviour |
| App.Workspace.ShowDetailPane | src/scripts/app.tsx:35-37 | the pane flag becomes exactly the argument; store, selection, mesh and reads are untouched; hiding the pane discards the accordion state |
| App.Workspace.ToggleDetailPane | src/components/Header.tsx:151-153 | the pane flag becomes the negation of its current value |
| App.Workspace.Save | src/components/Header.tsx:92-100 | the download is named `annotated_items.json` and holds one record per entry, in store order, with current values; no state changes |
| App.Workspace.Render | src/scripts/app.tsx:70-84 | the renderer is present exactly when there are mesh bytes, and gets those bytes; the editor is mounted exactly when the pane flag is set, and gets the workspace's own store and selection |

## Left out

- Menus, toolbar and layout: the anchor state of the File and Settings menus,
  `handleFileClose`, the Preferences item and the grid column widths. These are
  presentation only.
- Browser I/O: creating the `<input type=file>` element, the `.stl` filter, the
  `FileReader` itself, and the `Blob`, object URL and `<a>` click of the
  download. A chosen file is a `FileHandle`. A read's outcome is a parameter
  of `CompleteRead`. The download is its name plus the record sequence.
- The exact JSON text with two-space indentation. A browser `File` serialises
  to an empty object `{}`, so an exported `fileObject` carries no data.
  `Store.Record` therefore holds only the three strings.
- Accordion.IsExpanded: the flag map is a Dafny map, with no prototype lookup, so a name never toggled always reads as closed. In the source the flags are a plain object literal. A file named after an inherited `Object.prototype` property, such as `toString`, `constructor` or `valueOf`, reads a truthy inherited value there. It shows open before any click, and its first click closes it. The `.stl` filter on the picker is only a hint, so such a name can be imported.
- Scheduling of read callbacks. Any pending read may complete next, and that
  choice is the caller's.
- Sharing of entry objects between the old and the copied array in
  `handleInputChange`. Entries are values, and the edit is a sequence point
  update.
- The mesh renderer, the sidebar and the rendering context provider. These are
  external components.
