/** The table behind a directory listing (DirectoryTableModel.java with its
    inner DirectoryData) and the background task that computes one
    directory row's size (BackgroundTask.java). The two refer to each other
    (a task writes into the model that created it), so they share a module. */
module TableModel {
  import opened FileSystem
  import opened SizeWalk

  /** A slot of the size column, a Java `Long`: `Null` while the size is not
      known, `Long(ERROR)` when it could not be computed, `Long(n)` bytes. */
  datatype Slot = Null | Long(value: int)

  const ERROR: int := -1

  const NAME_COLUMN: int := 0
  const SIZE_COLUMN: int := 1

  /** The three states a size slot stands for. */
  datatype RowState = Pending | Error | Value(bytes: nat)

  /** The encoding of a row state in the size column. */
  function Encode(s: RowState): (slot: Slot)
    ensures Decode(slot) == Some(s)
  {
    match s
    case Pending => Null
    case Error => Long(ERROR)
    case Value(n) => Long(n)
  }

  /** Reading a slot back; a negative number other than -1 means nothing. */
  function Decode(slot: Slot): Option<RowState>
  {
    match slot
    case Null => Some(Pending)
    case Long(v) =>
      if v == ERROR then Some(Error)
      else if v >= 0 then Some(Value(v))
      else None
  }

  /** Every slot that means something is the encoding of what it means. */
  lemma EncodeDecode(slot: Slot)
    requires Decode(slot).Some?
    ensures Encode(Decode(slot).value) == slot
  {
  }

  /** What `getValueAt` returns: a path, a size slot or a string. */
  datatype CellValue = PathCell(path: Path) | SizeCell(slot: Slot) | TextCell(text: string)

  /** What calcSizes records for a child, given what readAttributes gave
      for it: an unreadable child is an error and not a directory; a
      directory is pending and a directory; a regular file has its size;
      anything else stays pending and is not a directory. */
  predicate RowFromAttributes(a: Option<Attributes>, slot: Slot, isDir: bool)
  {
    match a
    case None => slot == Long(ERROR) && !isDir
    case Some(attrs) =>
      if attrs.IsDirectory() then slot == Null && isDir
      else if attrs.IsRegularFile() then slot == Long(attrs.size) && !isDir
      else slot == Null && !isDir
  }

  /** The rows flagged as directories, in row order. */
  function DirectoryRows(flags: seq<bool>): seq<int>
  {
    if flags == [] then []
    else DirectoryRows(flags[..|flags| - 1]) + (if flags[|flags| - 1] then [|flags| - 1] else [])
  }

  /** `DirectoryRows` lists each directory row exactly once, in increasing
      order, and no other row. */
  lemma {:induction false} DirectoryRowsExactly(flags: seq<bool>)
    ensures var rows := DirectoryRows(flags);
      (forall k :: 0 <= k < |rows| ==> 0 <= rows[k] < |flags| && flags[rows[k]]) &&
      (forall i :: 0 <= i < |flags| && flags[i] ==> i in rows) &&
      (forall k, l :: 0 <= k < l < |rows| ==> rows[k] < rows[l])
  {
    if flags != [] {
      var init := flags[..|flags| - 1];
      DirectoryRowsExactly(init);
      assert forall i :: 0 <= i < |init| ==> init[i] == flags[i];
    }
  }

  /** Flagging one more row adds that row at the end if it is a directory. */
  lemma DirectoryRowsAppend(flags: seq<bool>, b: bool)
    ensures DirectoryRows(flags + [b]) == DirectoryRows(flags) + (if b then [|flags|] else [])
  {
    assert (flags + [b])[..|flags|] == flags;
  }

  /** The row each task was spawned for, in task-list order. */
  function TaskRows(tasks: seq<BackgroundTask>): (rows: seq<int>)
    ensures |rows| == |tasks|
  {
    seq(|tasks|, j requires 0 <= j < |tasks| => tasks[j].index)
  }

  /** A task list whose rows are the directory rows has exactly one task per
      directory row, none for any other row, in increasing row order. */
  lemma TasksMatchDirectoryRows(tasks: seq<BackgroundTask>, flags: seq<bool>)
    requires TaskRows(tasks) == DirectoryRows(flags)
    ensures forall i :: 0 <= i < |flags| ==>
      (flags[i] <==> exists j :: 0 <= j < |tasks| && tasks[j].index == i)
    ensures forall j, k :: 0 <= j < k < |tasks| ==> tasks[j].index < tasks[k].index
  {
    var rows := DirectoryRows(flags);
    DirectoryRowsExactly(flags);
    assert forall j :: 0 <= j < |tasks| ==> rows[j] == tasks[j].index;
    forall i | 0 <= i < |flags| && flags[i]
      ensures exists j :: 0 <= j < |tasks| && tasks[j].index == i
    {
      var j :| 0 <= j < |rows| && rows[j] == i;
      assert tasks[j].index == i;
    }
  }

  /** DirectoryData: the children of the directory, a size slot and a
      directory flag per row, and the tasks spawned for the directory rows. */
  class DirectoryData {
    const content: seq<Path>
    const rowsCount: int
    var sizes: seq<Slot>
    var isDirectory: seq<bool>
    var tasks: seq<BackgroundTask>

    /** The three lists are parallel, one entry per child, and the task list
        holds one task per directory row, in row order, each for that row's
        path. */
    ghost predicate Valid()
      reads this
    {
      rowsCount == |content| && |sizes| == rowsCount && |isDirectory| == rowsCount &&
      TaskRows(tasks) == DirectoryRows(isDirectory) &&
      forall t :: t in tasks ==> 0 <= t.index < |content| && t.root == content[t.index]
    }

    /** Every row holds what calcSizes recorded for its child in `fs`. */
    ghost predicate RowsFrom(fs: FileSystem)
      reads this
    {
      |sizes| == |content| && |isDirectory| == |content| &&
      forall i :: 0 <= i < |content| ==>
        RowFromAttributes(fs.ReadAttributes(content[i]), sizes[i], isDirectory[i])
    }

    /** The field initialisers; `calcSizes` follows (see the model's
        constructor). */
    constructor (content: seq<Path>)
      ensures this.content == content && rowsCount == |content|
      ensures sizes == [] && isDirectory == [] && tasks == []
    {
      this.content := content;
      rowsCount := |content|;
      sizes := [];
      isDirectory := [];
      tasks := [];
    }

    /** One pass over the children: read each child's attributes, record its
        size slot and directory flag, and spawn one task per directory row. */
    method CalcSizes(fs: FileSystem, model: DirectoryTableModel)
      requires rowsCount == |content| && sizes == [] && isDirectory == [] && tasks == []
      modifies this
      ensures Valid() && RowsFrom(fs)
      ensures forall t :: t in tasks ==> fresh(t) && t.model == model && t.state == Running
    {
      for i := 0 to |content|
        invariant |sizes| == i && |isDirectory| == i
        invariant forall j :: 0 <= j < i ==>
          RowFromAttributes(fs.ReadAttributes(content[j]), sizes[j], isDirectory[j])
        invariant TaskRows(tasks) == DirectoryRows(isDirectory)
        invariant forall t :: t in tasks ==> 0 <= t.index < |content| && t.root == content[t.index]
        invariant forall t :: t in tasks ==> fresh(t) && t.model == model && t.state == Running
      {
        CalcRow(fs, model, i);
      }
    }

    /** The body of calcSizes' loop for child `i`: its row is appended, as
        its attributes say, and a task is spawned for it when it is a
        directory. The rows before it and the tasks already spawned stay. */
    method CalcRow(fs: FileSystem, model: DirectoryTableModel, i: nat)
      requires i < |content| && |sizes| == i && |isDirectory| == i
      requires TaskRows(tasks) == DirectoryRows(isDirectory)
      modifies this
      ensures |sizes| == i + 1 && |isDirectory| == i + 1
      ensures sizes[..i] == old(sizes) && isDirectory[..i] == old(isDirectory)
      ensures RowFromAttributes(fs.ReadAttributes(content[i]), sizes[i], isDirectory[i])
      ensures TaskRows(tasks) == DirectoryRows(isDirectory)
      ensures forall t :: t in old(tasks) ==> t in tasks
      ensures forall t :: t in tasks && t !in old(tasks) ==>
        fresh(t) && t.model == model && t.state == Running && t.index == i && t.root == content[i]
    {
      ghost var flags := isDirectory;
      isDirectory := isDirectory + [false];
      sizes := sizes + [Null];

      var path := content[i];
      var attrs := fs.ReadAttributes(path);
      if attrs.None? {
        // readAttributes threw: show an error instead of a size
        sizes := sizes[i := Long(ERROR)];
        DirectoryRowsAppend(flags, false);
        return;
      }

      if attrs.value.IsDirectory() {
        var task := new BackgroundTask(model, path, i);
        assert TaskRows(tasks + [task]) == TaskRows(tasks) + [i];
        tasks := tasks + [task];
        isDirectory := isDirectory[i := true];
        assert isDirectory == flags + [true];
        DirectoryRowsAppend(flags, true);
      } else {
        if attrs.value.IsRegularFile() {
          sizes := sizes[i := Long(attrs.value.size)];
        }
        DirectoryRowsAppend(flags, false);
      }
    }

    function Get(index: int): (p: Path)
      reads this
      requires Valid() && 0 <= index < rowsCount
      ensures p in content
    {
      content[index]
    }

    function GetSize(index: int): (s: Slot)
      reads this
      requires Valid() && 0 <= index < rowsCount
      ensures s == sizes[index]
    {
      sizes[index]
    }

    /** Overwrites one size slot and nothing else. */
    method SetSize(index: int, size: Slot)
      requires Valid() && 0 <= index < rowsCount
      modifies this
      ensures Valid()
      ensures sizes == old(sizes)[index := size]
      ensures isDirectory == old(isDirectory) && tasks == old(tasks)
    {
      sizes := sizes[index := size];
    }

    /** `cancel(true)` on every task in the list; the list itself stays. */
    method CancelTasks()
      requires Valid()
      modifies tasks
      ensures forall j :: 0 <= j < |tasks| ==> tasks[j].state == AfterCancel(old(tasks[j].state))
    {
      TasksMatchDirectoryRows(tasks, isDirectory);
      for k := 0 to |tasks|
        invariant forall j :: 0 <= j < k ==> tasks[j].state == AfterCancel(old(tasks[j].state))
        invariant forall j :: k <= j < |tasks| ==> tasks[j].state == old(tasks[j].state)
      {
        tasks[k].Cancel();
      }
    }
  }

  /** The table model of one listing: two columns (name, size) over the rows
      of its DirectoryData. */
  class DirectoryTableModel {
    const directoryData: DirectoryData

    /** The rows are well formed and every task the listing spawned writes
        back into this model. */
    ghost predicate Valid()
      reads this, directoryData
    {
      directoryData.Valid() && forall t :: t in directoryData.tasks ==> t.model == this
    }

    /** Builds the rows from the children `Files.list` returned, reading each
        child's attributes in `fs`; every directory row gets a fresh running
        task bound to this model. */
    constructor (fs: FileSystem, children: seq<Path>)
      ensures Valid() && fresh(directoryData)
      ensures directoryData.content == children && directoryData.RowsFrom(fs)
      ensures forall t :: t in directoryData.tasks ==> fresh(t) && t.state == Running
    {
      directoryData := new DirectoryData(children);
      new;
      directoryData.CalcSizes(fs, this);
    }

    function GetRowCount(): (n: int)
      reads this, directoryData
      requires Valid()
      ensures n == |directoryData.content| == |directoryData.sizes| == |directoryData.isDirectory|
    {
      directoryData.rowsCount
    }

    /** A row is a directory exactly when a task was spawned for it, and then
        there is only one such task. */
    function IsDirectory(row: int): (b: bool)
      reads this, directoryData
      requires Valid() && 0 <= row < GetRowCount()
      ensures b <==> exists j :: 0 <= j < |directoryData.tasks| && directoryData.tasks[j].index == row
      ensures forall j, k ::
        (0 <= j < |directoryData.tasks| && 0 <= k < |directoryData.tasks| &&
         directoryData.tasks[j].index == row && directoryData.tasks[k].index == row) ==> j == k
    {
      TasksMatchDirectoryRows(directoryData.tasks, directoryData.isDirectory);
      directoryData.isDirectory[row]
    }

    /** No cell can be edited by the user. */
    function IsCellEditable(row: int, column: int): (b: bool)
      ensures !b
    {
      false
    }

    /** Column 0 is the child's path, column 1 its size slot, any other
        column the empty string. */
    function GetValueAt(row: int, column: int): (v: CellValue)
      reads this, directoryData
      requires Valid() && 0 <= row < GetRowCount()
      ensures v.PathCell? <==> column == NAME_COLUMN
      ensures v.SizeCell? <==> column == SIZE_COLUMN
      ensures v.PathCell? ==> v.path == directoryData.content[row]
      ensures v.SizeCell? ==> v.slot == directoryData.sizes[row]
      ensures v.TextCell? ==> v.text == ""
    {
      if column == NAME_COLUMN then PathCell(directoryData.Get(row))
      else if column == SIZE_COLUMN then SizeCell(directoryData.GetSize(row))
      else TextCell("")
    }

    /** Writing a size: only the size column is accepted, and then only that
        row's slot changes; paths, directory flags, tasks and the row count
        stay as they were. */
    method SetValueAt(value: Slot, row: int, column: int)
      requires Valid()
      requires column == SIZE_COLUMN ==> 0 <= row < GetRowCount()
      modifies directoryData
      ensures Valid()
      ensures column == SIZE_COLUMN ==> directoryData.sizes == old(directoryData.sizes)[row := value]
      ensures column != SIZE_COLUMN ==> directoryData.sizes == old(directoryData.sizes)
      ensures directoryData.isDirectory == old(directoryData.isDirectory)
      ensures directoryData.tasks == old(directoryData.tasks)
      ensures column == SIZE_COLUMN ==> GetValueAt(row, SIZE_COLUMN) == SizeCell(value)
      ensures forall r, c :: 0 <= r < GetRowCount() && (r != row || c != SIZE_COLUMN) ==>
        GetValueAt(r, c) == old(GetValueAt(r, c))
    {
      if column == SIZE_COLUMN {
        directoryData.SetSize(row, value);
      }
    }

    method CancelTasks()
      requires Valid()
      modifies directoryData.tasks
      ensures forall j :: 0 <= j < |directoryData.tasks| ==>
        directoryData.tasks[j].state == AfterCancel(old(directoryData.tasks[j].state))
    {
      directoryData.CancelTasks();
    }
  }

  /** `new DirectoryTableModel(directory, table)`. When the directory cannot
      be opened, the constructor throws an IOException: `m` is null. When
      the listing breaks part-way, `toList` throws an UncheckedIOException,
      which no caller catches: `m` is null and `unchecked` is set. Otherwise
      `m` is a fresh model over the directory's children. */
  method OpenDirectory(fs: FileSystem, directory: Path) returns (m: DirectoryTableModel?, unchecked: bool)
    ensures m == null <==> !fs.Lists(directory)
    ensures unchecked <==> fs.BreaksWhileListing(directory)
    ensures m != null ==> fresh(m) && fresh(m.directoryData) && m.Valid()
    ensures m != null ==>
      m.directoryData.content == fs.listings[directory].children && m.directoryData.RowsFrom(fs)
    ensures m != null ==> forall t :: t in m.directoryData.tasks ==> fresh(t) && t.state == Running
  {
    var listing := fs.List(directory);
    if listing.None? {
      return null, false;
    }
    if listing.value.BreaksMidway? {
      return null, true;
    }
    m := new DirectoryTableModel(fs, listing.value.children);
    unchecked := false;
  }

  /** The life of a task: running until either it is cancelled or its
      worker's result is recorded, whichever happens first. */
  datatype TaskState = Running | Cancelled | Finished(result: int)

  /** `cancel(true)`: a running task becomes cancelled; a finished or
      cancelled one stays as it is. */
  function AfterCancel(s: TaskState): (r: TaskState)
    ensures !r.Running?
    ensures s.Running? ==> r.Cancelled?
    ensures !s.Running? ==> r == s
  {
    if s.Running? then Cancelled else s
  }

  /** A background task computing the size of the directory in row `index`
      of `model`. */
  class BackgroundTask {
    const model: DirectoryTableModel
    const root: Path
    const index: int
    var state: TaskState

    constructor (model: DirectoryTableModel, root: Path, index: int)
      ensures this.model == model && this.root == root && this.index == index
      ensures state == Running
    {
      this.model := model;
      this.root := root;
      this.index := index;
      state := Running;
    }

    predicate IsCancelled()
      reads this
    {
      state.Cancelled?
    }

    method Cancel()
      modifies this
      ensures state == AfterCancel(old(state))
    {
      if state.Running? {
        state := Cancelled;
      }
    }

    /** Walks `walk`, the tree below `root` as the worker finds it, with the
        cancellation flag seen as `c` says: -1 when an IOException escapes,
        the visitor's total otherwise. Without cancellation that total is the
        size of the whole tree. */
    method CalsSize(walk: Tree, c: CancelPoint) returns (size: int)
      ensures size == SizeResult(Walk(walk, Acc(0, 0, Walking), c))
      ensures size >= -1
      ensures c == Never ==> size == if Breaks(walk) then -1 else TreeSize(walk)
    {
      var visitor := new CancellableDirectorySizeCalculator();
      var status, _ := WalkFileTree(walk, visitor, c, 0);
      UncancelledWalkSize(walk);
      if status == Threw {
        return -1;
      }
      size := visitor.GetTotalSize();
    }

    method DoInBackground(walk: Tree, c: CancelPoint) returns (size: int)
      ensures size == SizeResult(Walk(walk, Acc(0, 0, Walking), c))
      ensures c == Never ==> size == if Breaks(walk) then -1 else TreeSize(walk)
    {
      size := CalsSize(walk, c);
    }

    /** The worker's result reaching the task: kept only if the task was
        not cancelled first. */
    method Finish(size: int)
      modifies this
      ensures old(state).Running? ==> state == Finished(size)
      ensures !old(state).Running? ==> state == old(state)
    {
      if state.Running? {
        state := Finished(size);
      }
    }

    /** The worker's run: `doInBackground` over `walk` with the flag seen as
        `c` says, then its result offered to the task. A walk stops only on
        seeing `isCancelled()`, so when it stopped the task is cancelled by
        the time the result arrives, and the result is refused. Hence a
        task that ends finished holds the size of the whole tree, or -1 when
        a listing inside it broke; never the total of a cut-off walk. */
    method Run(walk: Tree, c: CancelPoint)
      requires !state.Finished?
      requires Walk(walk, Acc(0, 0, Walking), c).status == Stopped ==> IsCancelled()
      modifies this
      ensures old(state).Running? ==> state.Finished?
      ensures old(state).Cancelled? ==> state == Cancelled
      ensures state.Finished? ==> state == Finished(if Breaks(walk) then ERROR else TreeSize(walk))
    {
      var size := DoInBackground(walk, c);
      if state.Running? {
        UnstoppedWalkSize(walk, c);
      }
      Finish(size);
    }

    /** `execute()` followed by `done`: the worker runs, and `done` then
        writes the result into the task's row, unless the task was cancelled
        first, in which case the row keeps its slot. Only this row's size
        slot can change; the flags and the task list stay. */
    method Execute(walk: Tree, c: CancelPoint)
      requires !state.Finished?
      requires Walk(walk, Acc(0, 0, Walking), c).status == Stopped ==> IsCancelled()
      requires model.Valid() && 0 <= index < model.GetRowCount()
      modifies this, model.directoryData
      ensures model.Valid()
      ensures state.Finished? <==> old(state).Running?
      ensures state.Finished? ==>
        state == Finished(if Breaks(walk) then ERROR else TreeSize(walk)) &&
        model.directoryData.sizes == old(model.directoryData.sizes)[index := Long(state.result)] &&
        Decode(model.directoryData.sizes[index]) == Some(if Breaks(walk) then Error else Value(TreeSize(walk)))
      ensures !state.Finished? ==>
        state == Cancelled && model.directoryData.sizes == old(model.directoryData.sizes)
      ensures model.directoryData.isDirectory == old(model.directoryData.isDirectory)
      ensures model.directoryData.tasks == old(model.directoryData.tasks)
    {
      Run(walk, c);
      Done();
    }

    /** Delivery on the event thread: a finished task writes its result into
        its own row of its own model; a cancelled task writes nothing. */
    method Done()
      requires !state.Running?
      requires model.Valid() && 0 <= index < model.GetRowCount()
      modifies model.directoryData
      ensures model.Valid()
      ensures state.Finished? ==> model.directoryData.sizes == old(model.directoryData.sizes)[index := Long(state.result)]
      ensures state.Cancelled? ==> model.directoryData.sizes == old(model.directoryData.sizes)
      ensures model.directoryData.isDirectory == old(model.directoryData.isDirectory)
      ensures model.directoryData.tasks == old(model.directoryData.tasks)
    {
      if state.Finished? {
        model.SetValueAt(Long(state.result), index, SIZE_COLUMN);
      }
    }
  }
}
