/** The navigation state of AppFrame.java: the directory on screen, the
    table model listing it, and the path the text field was last set to.
    The handlers are guard chains that end in `updateStateAndShow`. Events,
    layout and dialogs are not modelled; each handler receives what the
    event and the disk would have told it. */
module Navigation {
  import opened FileSystem
  import opened TableModel

  class AppFrame {
    var dir: Option<Path>
    var model: DirectoryTableModel?
    /** The path whose text `dirTextField.setText` was last given. */
    var fieldText: Option<Path>

    ghost function Footprint(): set<object>
      reads this
    {
      if model == null then {this} else {this, model, model.directoryData}
    }

    /** A directory is shown exactly when a model is installed, and that
        model is well formed. */
    ghost predicate Valid()
      reads this, Footprint()
    {
      (model == null <==> dir.None?) && (model != null ==> model.Valid())
    }

    /** The tasks of the listing on screen. */
    ghost function Tasks(): seq<BackgroundTask>
      reads this, Footprint()
    {
      if model == null then [] else model.directoryData.tasks
    }

    /** The frame shows directory `d` with a listing of its children in
        `fs`, and the text field shows `d`. */
    ghost predicate Showing(fs: FileSystem, d: Path)
      reads this, Footprint()
    {
      dir == Some(d) && model != null && fieldText == dir &&
      fs.Lists(d) && model.directoryData.content == fs.listings[d].children &&
      model.directoryData.RowsFrom(fs)
    }

    /** What opening `d` leaves behind, apart from the text field when the
        listing breaks: a listing that opens is shown with a fresh model
        whose tasks are all fresh and running; otherwise model and directory
        stay as they were, and when `d` cannot be opened at all the field
        shows the current directory again. */
    twostate predicate Opened(fs: FileSystem, d: Path)
      reads this, Footprint(), Tasks()
    {
      (fs.Lists(d) ==>
         Showing(fs, d) && fresh(model) && fresh(model.directoryData) &&
         forall t :: t in model.directoryData.tasks ==> fresh(t) && t.state == Running) &&
      (!fs.Lists(d) ==> dir == old(dir) && model == old(model)) &&
      (d !in fs.listings ==> fieldText == dir)
    }

    /** The constructor opens the home directory. */
    constructor (fs: FileSystem, home: Path)
      ensures Valid()
      ensures fs.Lists(home) ==> Showing(fs, home) && fresh(model)
      ensures !fs.Lists(home) ==> dir.None? && model == null
    {
      dir := None;
      model := null;
      fieldText := None;
      new;
      var _ := UpdateStateAndShow(fs, home);
    }

    /** Cancels the tasks of the listing on screen, then opens `newDir`. On
        success the new model and `newDir` are installed together. When the
        directory cannot be opened, model and directory stay as they were
        (with their tasks cancelled all the same), and the field shows the
        current directory again. When its listing breaks part-way, the
        UncheckedIOException escapes (`escaped`) before anything else is
        changed. */
    method UpdateStateAndShow(fs: FileSystem, newDir: Path) returns (escaped: bool)
      requires Valid()
      modifies this, Tasks()
      ensures Valid()
      ensures escaped <==> fs.BreaksWhileListing(newDir)
      ensures forall j :: 0 <= j < |old(Tasks())| ==>
        old(Tasks())[j].state == AfterCancel(old(Tasks()[j].state))
      ensures Opened(fs, newDir)
      ensures fs.BreaksWhileListing(newDir) ==> fieldText == old(fieldText)
    {
      if model != null {
        model.CancelTasks();
      }

      var newModel, unchecked := OpenDirectory(fs, newDir);
      if unchecked {
        return true;
      }
      escaped := false;
      if newModel == null {
        // the source reports the error here (and quits when nothing was
        // shown yet) and puts the current directory back into the field
        fieldText := dir;
        return;
      }
      model := newModel;
      dir := Some(newDir);
      fieldText := dir;
    }

    /** Goes to the parent directory, if there is one, its attributes can be
        read and it is a directory; otherwise nothing happens. */
    method TryGoToParentDirectory(fs: FileSystem)
      requires Valid() && dir.Some?
      modifies this, Tasks()
      ensures Valid()
      ensures var parent := old(dir).value.Parent();
        var goes := parent.Some? && parent.value in fs.attributes && fs.attributes[parent.value].IsDirectory();
        (!goes ==>
           dir == old(dir) && model == old(model) && fieldText == old(fieldText) &&
           forall j :: 0 <= j < |old(Tasks())| ==> old(Tasks())[j].state == old(Tasks()[j].state)) &&
        (goes ==> forall j :: 0 <= j < |old(Tasks())| ==>
           old(Tasks())[j].state == AfterCancel(old(Tasks()[j].state))) &&
        (goes ==> Opened(fs, parent.value)) &&
        (goes && fs.BreaksWhileListing(parent.value) ==> fieldText == old(fieldText))
    {
      var parent := dir.value.Parent();
      if parent.None? {
        return;
      }

      var attrs := fs.ReadAttributes(parent.value);
      if attrs.None? {
        // cannot open directory
        return;
      }

      if attrs.value.IsDirectory() {
        var _ := UpdateStateAndShow(fs, parent.value);
      }
    }

    /** Enter in the path field. `typed` is `Path.of(text).normalize()` for
        the text in the field, None when Path.of rejects it. Only an absolute
        path to a directory other than the current one is opened. The field
        ends up showing the current directory, except when the listing of
        the typed directory breaks part-way: the UncheckedIOException then
        escapes the handler and the field keeps the typed path. */
    method TextFieldEnterPressed(fs: FileSystem, typed: Option<Path>)
      requires Valid() && dir.Some?
      modifies this, Tasks()
      ensures Valid()
      ensures var goes := typed.Some? && typed.value.absolute &&
          typed.value in fs.attributes && fs.attributes[typed.value].IsDirectory() &&
          old(dir) != typed;
        (!goes ==>
           dir == old(dir) && model == old(model) && fieldText == dir &&
           forall j :: 0 <= j < |old(Tasks())| ==> old(Tasks())[j].state == old(Tasks()[j].state)) &&
        (goes ==> forall j :: 0 <= j < |old(Tasks())| ==>
           old(Tasks())[j].state == AfterCancel(old(Tasks()[j].state))) &&
        (goes ==> Opened(fs, typed.value)) &&
        (goes && !fs.BreaksWhileListing(typed.value) ==> fieldText == dir) &&
        (goes && fs.BreaksWhileListing(typed.value) ==> fieldText == typed)
    {
      if typed.None? {
        // invalid path
        fieldText := dir;
        return;
      }
      var newDir := typed.value;

      if !newDir.absolute {
        fieldText := dir;
        return;
      }

      var attrs := fs.ReadAttributes(newDir);
      if attrs.None? {
        // cannot open directory
        fieldText := dir;
        return;
      }
      if attrs.value.IsDirectory() {
        // the field shows the normalised path, even when nothing else changes
        fieldText := typed;
        if dir == typed {
          return;
        }
        var _ := UpdateStateAndShow(fs, newDir);
      } else {
        fieldText := dir;
      }
    }

    /** Opens the row under the pointer or the selected row. `row` and
        `column` are view coordinates (-1 when there is none); `index` is
        the model row the view row shows. Only a directory row is opened. */
    method TryGoToSelectedDirectory(fs: FileSystem, row: int, column: int, index: int)
      requires Valid() && dir.Some?
      requires row >= 0 && column >= 0 ==> 0 <= index < model.GetRowCount()
      modifies this, Tasks()
      ensures Valid()
      ensures var goes := row >= 0 && column >= 0 && old(model.IsDirectory(index));
        (!goes ==>
           dir == old(dir) && model == old(model) && fieldText == old(fieldText) &&
           forall j :: 0 <= j < |old(Tasks())| ==> old(Tasks())[j].state == old(Tasks()[j].state)) &&
        (goes ==> forall j :: 0 <= j < |old(Tasks())| ==>
           old(Tasks())[j].state == AfterCancel(old(Tasks()[j].state)))
      ensures row >= 0 && column >= 0 && old(model.IsDirectory(index)) ==>
        var target := old(model.directoryData.content[index]);
        Opened(fs, target) &&
        (fs.BreaksWhileListing(target) ==> fieldText == old(fieldText))
    {
      if row >= 0 && column >= 0 {
        var clickedItem := model.GetValueAt(index, NAME_COLUMN).path;
        if model.IsDirectory(index) {
          var _ := UpdateStateAndShow(fs, clickedItem);
        }
      }
    }
  }

  /** A task of a superseded listing delivering late: whether or not it
      finished before the navigation cancelled it, its `done` writes only
      into the model it was created for, so the listing on screen keeps the
      rows it was opened with. */
  method LateDeliveryAfterNavigation(frame: AppFrame, fs: FileSystem, newDir: Path, task: BackgroundTask)
    requires frame.Valid() && frame.model != null && task in frame.model.directoryData.tasks
    requires fs.Lists(newDir)
    modifies frame, frame.Tasks(), frame.model.directoryData
    ensures frame.Showing(fs, newDir)
    ensures frame.model != task.model
  {
    ghost var oldModel := frame.model;
    var _ := frame.UpdateStateAndShow(fs, newDir);
    assert !task.state.Running?;
    task.Done();
  }
}
