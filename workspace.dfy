/**
 * The application's single owner of workspace state, with the handlers of
 * the header toolbar and the editor pane as its methods.
 */
module App {
  import opened Wrappers
  import opened Store
  import opened Accordion
  import opened Loading

  /** What the mounted editor pane shows: the store and selection it is lent, and its own accordion state. */
  datatype EditorProps = EditorProps(files: seq<Entry>, selected: Option<string>, expanded: map<string, bool>)

  /** What the main grid shows: the mesh renderer's input and the editor pane's. */
  datatype View = View(renderer: Option<Bytes>, editor: Option<EditorProps>)

  class Workspace {
    /** The imported entries, in import order. */
    var files: seq<Entry>
    /** The name of the file being previewed. */
    var selected: Option<string>
    /** The mesh bytes handed to the renderer. */
    var modelData: Option<Bytes>
    /** Whether the editor pane is mounted. */
    var paneVisible: bool
    /** The editor pane's own accordion state; it lives only while the pane is mounted. */
    var expanded: map<string, bool>
    /** Reads that have been started and whose `onload` has not yet run, in request order. */
    var pending: seq<FileHandle>

    /** The accordion state belongs to the mounted pane: a hidden pane has none. */
    ghost predicate Valid()
      reads this
      ensures paneVisible ==> Valid()
      ensures !paneVisible ==> (Valid() <==> expanded == map[])
    {
      !paneVisible ==> expanded == map[]
    }

    /** The state the application starts with. */
    constructor ()
      ensures Valid()
      ensures files == [] && selected == None && modelData == None
      ensures !paneVisible && expanded == map[] && pending == []
    {
      files := [];
      selected := None;
      modelData := None;
      paneVisible := false;
      expanded := map[];
      pending := [];
    }

    /** `handleModelLoad`: the given bytes become the renderer's input. */
    method HandleModelLoad(data: Bytes)
      requires Valid()
      modifies this`modelData
      ensures Valid()
      ensures modelData == Some(data)
    {
      modelData := Some(data);
    }

    /** Starts a binary read of `file` (`loadSTLFile`); its completion is a separate step. */
    method LoadFile(file: FileHandle)
      requires Valid()
      modifies this`pending
      ensures Valid()
      ensures pending == old(pending) + [file]
    {
      pending := pending + [file];
    }

    /**
     * The `onload` callback of the pending read at position `k`: only an
     * `ArrayBuffer` result reaches the renderer. Any pending read may finish
     * first, so the last read to complete decides what is shown.
     */
    method CompleteRead(k: nat, result: ReadResult)
      requires Valid()
      requires k < |pending|
      modifies this`modelData, this`pending
      ensures Valid()
      ensures pending == old(pending[..k] + pending[k + 1..])
      ensures modelData == Publish(old(modelData), result)
    {
      pending := pending[..k] + pending[k + 1..];
      if result.Binary? {
        HandleModelLoad(result.bytes);
      }
    }

    /**
     * `handleImport`: the store becomes exactly one fresh entry per chosen
     * file; a non-empty import selects and starts loading the first file,
     * an empty one leaves selection and mesh as they were.
     */
    method Import(chosen: seq<FileHandle>)
      requires Valid()
      modifies this`files, this`selected, this`pending
      ensures Valid()
      ensures files == EntriesOf(chosen)
      ensures chosen != [] ==> selected == Some(chosen[0].name) && pending == old(pending) + [chosen[0]]
      ensures chosen == [] ==> selected == old(selected) && pending == old(pending)
    {
      files := EntriesOf(chosen);
      if |chosen| > 0 {
        LoadFile(chosen[0]);
        selected := Some(chosen[0].name);
      }
    }

    /**
     * `handleFileSelect`: a name that some entry carries becomes the
     * selection and the first such entry's file starts loading; any other
     * name changes nothing.
     */
    method Select(name: string)
      requires Valid()
      modifies this`selected, this`pending
      ensures Valid()
      ensures FindFirst(files, name).None? ==> selected == old(selected) && pending == old(pending)
      ensures FindFirst(files, name).Some? ==>
        selected == Some(name) && pending == old(pending) + [files[FindFirst(files, name).value].handle]
    {
      var hit := FindFirst(files, name);
      if hit.Some? {
        selected := Some(name);
        LoadFile(files[hit.value].handle);
      }
    }

    /** `handleInputChange`: one annotation cell of one entry is overwritten. */
    method SetAnnotation(index: nat, field: Field, value: string)
      requires Valid()
      requires index < |files|
      modifies this`files
      ensures Valid()
      ensures files == SetField(old(files), index, field, value)
    {
      files := SetField(files, index, field, value);
    }

    /**
     * `handleAccordionChange`: flips the accordion of `name` and forwards
     * the name to the selection handler. It exists only while the pane is mounted.
     */
    method ToggleAccordion(name: string)
      requires Valid() && paneVisible
      modifies this`expanded, this`selected, this`pending
      ensures Valid()
      ensures expanded == Toggle(old(expanded), name)
      ensures FindFirst(files, name).None? ==> selected == old(selected) && pending == old(pending)
      ensures FindFirst(files, name).Some? ==>
        selected == Some(name) && pending == old(pending) + [files[FindFirst(files, name).value].handle]
    {
      expanded := Toggle(expanded, name);
      Select(name);
    }

    /**
     * `showDetailPane`: the pane flag becomes `show`. Hiding the pane
     * unmounts the editor, which discards its accordion state.
     */
    method ShowDetailPane(show: bool)
      requires Valid()
      modifies this`paneVisible, this`expanded
      ensures Valid()
      ensures paneVisible == show
      ensures expanded == if show then old(expanded) else map[]
    {
      paneVisible := show;
      if !show {
        expanded := map[];
      }
    }

    /** The detail icon of the toolbar: sets the pane flag to the negation of its current value. */
    method ToggleDetailPane()
      requires Valid()
      modifies this`paneVisible, this`expanded
      ensures Valid()
      ensures paneVisible == !old(paneVisible)
      ensures expanded == if paneVisible then old(expanded) else map[]
    {
      ShowDetailPane(!paneVisible);
    }

    /**
     * `handleSave`: the download's name and the array it serialises, one
     * record per entry in store order. It changes no state.
     */
    method Save() returns (name: string, records: seq<Record>)
      ensures name == ExportName
      ensures |records| == |files|
      ensures forall i :: 0 <= i < |files| ==>
        records[i] == Record(files[i].fileName, files[i].problem, files[i].classLabel)
    {
      name := ExportName;
      records := Records(files);
    }

    /**
     * What the main grid shows: the renderer only while there are mesh
     * bytes, and the editor only while the pane flag is set, given the
     * store and selection this object owns.
     */
    function Render(): (v: View)
      reads this
      ensures v.renderer.Some? <==> modelData.Some?
      ensures v.renderer.Some? ==> v.renderer.value == modelData.value
      ensures v.editor.Some? <==> paneVisible
      ensures v.editor.Some? ==> v.editor.value.files == files && v.editor.value.selected == selected
    {
      View(modelData, if paneVisible then Some(EditorProps(files, selected, expanded)) else None)
    }
  }

  /** The session of importing two files, editing the second and exporting. */
  method ImportEditExportScenario() {
    var a := FileHandle("a.stl", 0);
    var b := FileHandle("b.stl", 1);
    var w := new Workspace();
    w.Import([a, b]);
    assert w.files == [Entry("a.stl", a, "", ""), Entry("b.stl", b, "", "")];
    assert w.selected == Some("a.stl");
    w.SetAnnotation(1, Class, "Bracket");
    assert w.files[1] == Entry("b.stl", b, "", "Bracket");
    var name, records := w.Save();
    assert name == "annotated_items.json";
    assert records == [Record("a.stl", "", ""), Record("b.stl", "", "Bracket")];
  }

  /** A second import wipes every earlier entry and annotation. */
  method ReimportScenario() {
    var a := FileHandle("a.stl", 0);
    var c := FileHandle("c.stl", 2);
    var w := new Workspace();
    w.Import([a]);
    w.SetAnnotation(0, Problem, "crack");
    w.Import([c]);
    assert w.files == [Entry("c.stl", c, "", "")];
    w.Import([]);
    assert w.files == [] && w.selected == Some("c.stl");
  }

  /**
   * Selecting A and then B, with A's read finishing last: the renderer
   * shows A's mesh while the selection names B.
   */
  method ReadRaceScenario(meshA: Bytes, meshB: Bytes) {
    var a := FileHandle("a.stl", 0);
    var b := FileHandle("b.stl", 1);
    var w := new Workspace();
    w.Import([a, b]);
    w.CompleteRead(0, Binary(meshA));
    w.Select("a.stl");
    w.Select("b.stl");
    assert w.pending == [a, b];
    w.CompleteRead(1, Binary(meshB));
    w.CompleteRead(0, Binary(meshA));
    assert w.selected == Some("b.stl") && w.modelData == Some(meshA);
    w.Select("missing.stl");
    assert w.selected == Some("b.stl") && w.pending == [];
  }

  /** Opening an accordion, hiding and reopening the pane shows it closed again. */
  method PaneRemountScenario() {
    var a := FileHandle("a.stl", 0);
    var w := new Workspace();
    w.Import([a]);
    w.ToggleDetailPane();
    w.ToggleAccordion("a.stl");
    assert IsExpanded(w.expanded, "a.stl");
    w.ToggleDetailPane();
    w.ToggleDetailPane();
    assert !IsExpanded(w.expanded, "a.stl");
    assert w.files == [Entry("a.stl", a, "", "")];
  }
}
