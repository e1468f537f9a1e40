# Disk Space Tool — a Dafny model of the directory listing and its size tasks

The Disk Space Tool is a small Swing application that lists a directory and
shows each entry's size. A regular file shows its byte count at once. A
subdirectory shows `--` until a background task has walked it and summed the
sizes of the files inside. Navigating to another directory cancels the tasks
of the listing on screen and builds a new listing.

This project models the bookkeeping behind that, against an abstract
filesystem:

- `FileSystem` (`filesystem.dfy`): paths, and a snapshot of the disk. The
  snapshot maps each readable path to its attributes (directory, regular file
  or other, and a size). It also maps each directory that can be opened to
  its listing: either all of its children, or a listing that breaks
  part-way. A path missing from a map is one whose `Files.readAttributes`
  or `Files.list` throws an IOException.
- `SizeWalk` (`size_walk.dfy`): the directory-size walk of a task. The tree
  the walk meets is a `Tree`: non-directory entries (`visitFile`),
  unreadable entries (`visitFileFailed`) and directories, whose listing may
  break part-way. A breaking listing is an IOException that escapes the walk.
  Cancellation is a `CancelPoint`: the visitFile check from which
  `task.isCancelled()` answers true. The pure fold `Walk` is the
  specification. The visitor class `CancellableDirectorySizeCalculator` keeps
  the running `totalSize`. The driver `WalkFileTree` is proved to leave it
  exactly as the fold says.
- `TableModel` (`table_model.dfy`): `DirectoryData`, `DirectoryTableModel`
  and `BackgroundTask`, as classes whose fields the methods update. The size
  column keeps the source's encoding: `Null` means pending, `Long(-1)` means
  error, and `Long(n)` means n bytes. `Encode`/`Decode` relate it to
  `Pending | Error | Value(n)`. A task's life is `Running`, then `Cancelled`
  or `Finished(v)`, whichever comes first. A walk that stopped on the flag
  belongs to a cancelled task, so its partial total is never recorded.
- `CellRenderer` (`cell_renderer.dfy`): what the renderer puts on a cell:
  the stripe colour, the name and icon, `--`/`ERROR`, and the choice of unit
  and divisor.
- `Navigation` (`navigation.dfy`): the `dir` and `model` fields of `AppFrame`,
  plus the path last put into the text field. Also `updateStateAndShow` and
  the three handlers that call it.

Points of the code's behaviour that the model makes explicit:

- The code cancels the current listing's tasks *before* it tries to open the
  new directory. So a failed open leaves the old listing on screen with its
  tasks cancelled, and its pending directory rows keep showing `--`.
- Nothing marks a listing as superseded. A task always writes into the model
  that created it. A task whose worker finished before `cancel` reached it
  still writes its result into that old model. The model on screen is never
  touched (`Navigation.LateDeliveryAfterNavigation`).
- When a directory's listing breaks part-way, `toList` throws an
  UncheckedIOException, which neither handler catches. The tasks are already
  cancelled, and model and directory stay. The text field is not reset: after
  Enter in the field it keeps the typed path.
- A readable child that is neither a directory nor a regular file stays
  pending (`--`) forever. It gets no task.
- A task whose root cannot be read gets size 0, not an error. The walk calls
  `visitFileFailed` for the root and continues. The result is -1 only when an
  IOException escapes the walk, i.e. when a directory listing breaks part-way.
  An unreadable subdirectory contributes 0.

## Model

| member | source | states |
|---|---|---|
| `FileSystem.Path.Parent` | src/com/emgariko/diskspacetool/AppFrame.java:48-49 | there is a parent exactly when the path has more than one name, or is absolute with one name; the parent is the path minus its last name |
| `FileSystem.Path.LastName` | src/com/emgariko/diskspacetool/model/CustomTableCellRenderer.java:80 | the display name is the path's last name element |
| `SizeWalk.Walk` | src/com/emgariko/diskspacetool/BackgroundTask.java:24-38 | during a walk `totalSize` never decreases (sizes are non-negative) and the visit count never decreases; once the walk has stopped or thrown, nothing changes any more |
| `SizeWalk.LeavesSumIsTreeSize` | src/com/emgariko/diskspacetool/BackgroundTask.java:31 | the sum of the `attrs.size()` values handed to visitFile equals the independently defined size of the tree, in which unreadable entries count 0 |
| `SizeWalk.WalkAddsVisitedPrefix` | src/com/emgariko/diskspacetool/BackgroundTask.java:26-38 | the total is always the sum of the files visited so far, in visiting order; the walk completes only after visiting every file of a tree with no broken listing; it stops only when a check sees the flag, and without adding that file; it throws only where a listing breaks |
| `SizeWalk.UnstoppedWalkSize` | src/com/emgariko/diskspacetool/BackgroundTask.java:55-63 | a walk that did not stop at a cancellation check, whatever flag it was given, throws exactly when some listing breaks and otherwise has added the size of the whole tree: `calsSize` then returns -1 or that size, never a part |
| `SizeWalk.UncancelledWalkSize` | src/com/emgariko/diskspacetool/BackgroundTask.java:55-63 | without cancellation the walk never stops early; it throws exactly when some listing breaks; otherwise `calsSize` returns the size of the whole tree, and -1 when it throws |
| `SizeWalk.CancelledBeforeStartAddsNothing` | src/com/emgariko/diskspacetool/BackgroundTask.java:28-30 | a task cancelled before its walk starts adds nothing: total 0, no file visited, and a tree with files never completes |
| `SizeWalk.CancellableDirectorySizeCalculator.constructor` | src/com/emgariko/diskspacetool/BackgroundTask.java:24 | the running total starts at 0 |
| `SizeWalk.CancellableDirectorySizeCalculator.VisitFile` | src/com/emgariko/diskspacetool/BackgroundTask.java:26-33 | TERMINATE exactly when the task is cancelled, leaving the total unchanged; otherwise CONTINUE with the file's size added |
| `SizeWalk.CancellableDirectorySizeCalculator.VisitFileFailed` | src/com/emgariko/diskspacetool/BackgroundTask.java:35-38 | a failed visit continues the walk and adds nothing |
| `SizeWalk.CancellableDirectorySizeCalculator.GetTotalSize` | src/com/emgariko/diskspacetool/BackgroundTask.java:40-42 | returns the running total |
| `SizeWalk.WalkFileTree` | src/com/emgariko/diskspacetool/BackgroundTask.java:58 | driving the visitor over the tree leaves its total, the visit count and the walk's outcome exactly as the fold `Walk` gives them |
| `TableModel.Encode` | src/com/emgariko/diskspacetool/model/DirectoryTableModel.java:22-30 | pending, error and a byte count are stored as null, -1 and the count, and each reads back as itself |
| `TableModel.EncodeDecode` | src/com/emgariko/diskspacetool/model/DirectoryTableModel.java:22-30 | every slot that means something is the encoding of what it means |
| `TableModel.DirectoryRowsExactly` | src/com/emgariko/diskspacetool/model/DirectoryTableModel.java:34-38 | the directory rows are listed once each, in increasing order, and no other row is listed |
| `TableModel.TasksMatchDirectoryRows` | src/com/emgariko/diskspacetool/model/DirectoryTableModel.java:35-36 | a task list appended in row order for the directory rows has exactly one task per directory row and none for other rows |
| `TableModel.DirectoryData.constructor` | src/com/emgariko/diskspacetool/model/DirectoryTableModel.java:51-55 | keeps the children; row count = number of children; empty size, flag and task lists |
| `TableModel.DirectoryData.CalcSizes` | src/com/emgariko/diskspacetool/model/DirectoryTableModel.java:19-43 | the size and flag lists get one entry per child, each per its attributes: unreadable gives -1 and not a directory; a directory gives null and a directory; a regular file gives its size; anything else gives null. One fresh running task per directory row, in row order, for that row's path and index, bound to the given model |
| `TableModel.DirectoryData.CalcRow` | src/com/emgariko/diskspacetool/model/DirectoryTableModel.java:21-41 | one turn of the loop: child i's row is appended as its attributes say, earlier rows and tasks stay, and a task is spawned (fresh, running, for that row's path and index) exactly when the row is a directory |
| `TableModel.DirectoryData.Get` | src/com/emgariko/diskspacetool/model/DirectoryTableModel.java:59-61 | returns one of the children |
| `TableModel.DirectoryData.GetSize` | src/com/emgariko/diskspacetool/model/DirectoryTableModel.java:63-65 | returns that row's size slot; `GetValueAt` states it for column 1 |
| `TableModel.DirectoryData.SetSize` | src/com/emgariko/diskspacetool/model/DirectoryTableModel.java:67-69 | only that row's size slot changes; flags and tasks stay; the invariant is kept |
| `TableModel.DirectoryData.CancelTasks` | src/com/emgariko/diskspacetool/model/DirectoryTableModel.java:71-75 | every task in the list gets `cancel`: running ones become cancelled, finished ones stay finished; the list itself is unchanged |
| `TableModel.DirectoryTableModel.constructor` | src/com/emgariko/diskspacetool/model/DirectoryTableModel.java:86-92 | a valid model over exactly the given children, rows as `CalcSizes` states, all tasks fresh, running and bound to this model |
| `TableModel.OpenDirectory` | src/com/emgariko/diskspacetool/model/DirectoryTableModel.java:86-92 | no model (null) exactly when the directory cannot be opened or its listing breaks part-way; the UncheckedIOException flag exactly in the second case; otherwise a fresh valid model over its children |
| `TableModel.DirectoryTableModel.GetRowCount` | src/com/emgariko/diskspacetool/model/DirectoryTableModel.java:98-101 | the row count equals the number of children and the lengths of the size and flag lists |
| `TableModel.DirectoryTableModel.IsDirectory` | src/com/emgariko/diskspacetool/model/DirectoryTableModel.java:94-96 | a row is a directory exactly when a task was spawned for it, and at most one task carries that row's index |
| `TableModel.DirectoryTableModel.IsCellEditable` | src/com/emgariko/diskspacetool/model/DirectoryTableModel.java:113-116 | no cell is editable |
| `TableModel.DirectoryTableModel.GetValueAt` | src/com/emgariko/diskspacetool/model/DirectoryTableModel.java:118-127 | column 0 gives the row's path, column 1 its size slot, any other column the empty string |
| `TableModel.DirectoryTableModel.SetValueAt` | src/com/emgariko/diskspacetool/model/DirectoryTableModel.java:129-132 | only a write to the size column does anything; afterwards `GetValueAt` on that cell returns the value, and every other cell, the flags, the tasks and the row count are as before |
| `TableModel.DirectoryTableModel.CancelTasks` | src/com/emgariko/diskspacetool/model/DirectoryTableModel.java:146-148 | every task of the listing has been cancelled, unless it had already finished |
| `TableModel.AfterCancel` | src/com/emgariko/diskspacetool/model/DirectoryTableModel.java:73 | after `cancel` no task is running; a running task becomes cancelled; any other keeps its state |
| `TableModel.BackgroundTask.constructor` | src/com/emgariko/diskspacetool/BackgroundTask.java:49-53 | the task keeps its model, root and row index, and starts out running |
| `TableModel.BackgroundTask.Cancel` | src/com/emgariko/diskspacetool/model/DirectoryTableModel.java:72-74 | the state becomes the cancelled state per `AfterCancel` |
| `TableModel.BackgroundTask.CalsSize` | src/com/emgariko/diskspacetool/BackgroundTask.java:55-63 | the result is what the fold gives for this walk and flag: -1 if an IOException escaped, the visitor's total otherwise; never below -1; without cancellation, the size of the whole tree or -1 if a listing broke |
| `TableModel.BackgroundTask.DoInBackground` | src/com/emgariko/diskspacetool/BackgroundTask.java:65-68 | the worker's result is `calsSize` of the root |
| `TableModel.BackgroundTask.Finish` | src/com/emgariko/diskspacetool/BackgroundTask.java:66-67 | the worker's result is kept only if the task was still running; a cancelled task stays cancelled |
| `TableModel.BackgroundTask.Run` | src/com/emgariko/diskspacetool/BackgroundTask.java:65-68 | a walk stops only on seeing `isCancelled()`, so a running task always ends finished and a cancelled one stays cancelled; a finished task holds the size of the whole tree, or -1 when a listing broke, never the total of a cut-off walk |
| `TableModel.BackgroundTask.Done` | src/com/emgariko/diskspacetool/BackgroundTask.java:70-77 | a finished task writes its result into row `index`, size column, of its own model; a cancelled task writes nothing; flags and tasks stay |
| `TableModel.BackgroundTask.Execute` | src/com/emgariko/diskspacetool/model/DirectoryTableModel.java:35-37 | the task ends finished exactly when it was still running; then its state and its row hold the size of the tree it walked, or the error value if a listing in it broke; a cancelled task leaves the row as it was; flags and tasks stay |
| `CellRenderer.FileSizeUnit` | src/com/emgariko/diskspacetool/model/CustomTableCellRenderer.java:34-51 | the unit is one of B, KB, MB, GB, TB and its divisor is positive |
| `CellRenderer.FileSizeUnitLadder` | src/com/emgariko/diskspacetool/model/CustomTableCellRenderer.java:35-49 | sizes below 1024 use B with divisor 1; sizes in [1024^k, 1024^(k+1)) use the k-th unit with divisor 1024^k; sizes from 1024^4 on use TB with divisor 1024^4 |
| `CellRenderer.ShownNumberInRange` | src/com/emgariko/diskspacetool/model/CustomTableCellRenderer.java:40-49 | for a non-negative size, the integer part shown is below 1024 except in TB, and at least 1 except in B |
| `CellRenderer.SizeValueText` | src/com/emgariko/diskspacetool/model/CustomTableCellRenderer.java:53-62 | pending (null) shows "--", error (-1) shows "ERROR", and exactly those; a byte count is shown scaled to its unit |
| `CellRenderer.RowBackground` | src/com/emgariko/diskspacetool/model/CustomTableCellRenderer.java:70-73 | a selected row keeps the selection colour; an unselected one is white or light gray |
| `CellRenderer.RowStripes` | src/com/emgariko/diskspacetool/model/CustomTableCellRenderer.java:70-73 | unselected rows alternate: row 0 is white, neighbouring rows differ, and the colours repeat every two rows |
| `CellRenderer.Render` | src/com/emgariko/diskspacetool/model/CustomTableCellRenderer.java:64-88 | the background follows the stripe rule; the name column shows the last name element, with the folder icon exactly for directory rows; the size column shows no icon and the size text |
| `Navigation.AppFrame.constructor` | src/com/emgariko/diskspacetool/AppFrame.java:196-204 | if the home directory can be listed the frame shows it with a fresh listing; otherwise nothing is shown |
| `Navigation.AppFrame.UpdateStateAndShow` | src/com/emgariko/diskspacetool/AppFrame.java:206-236 | the current listing's tasks are cancelled first, even when the open then fails; on success model and dir are replaced together by a fresh listing of the new directory, whose directory rows follow their attributes and whose tasks are fresh and running; when the directory cannot be opened model and dir stay and the field shows dir again; when its listing breaks part-way the exception escapes and model, dir and field stay |
| `Navigation.AppFrame.TryGoToParentDirectory` | src/com/emgariko/diskspacetool/AppFrame.java:47-62 | no parent, unreadable parent attributes or a parent that is not a directory change nothing, and no task is cancelled; otherwise the outcome of `updateStateAndShow(parent)`, in each of its three cases |
| `Navigation.AppFrame.TextFieldEnterPressed` | src/com/emgariko/diskspacetool/AppFrame.java:72-102 | an invalid, relative, unreadable or non-directory path, or the current directory again, neither rebuilds the model nor cancels tasks, and the field shows the current directory; any other directory gets the outcome of `updateStateAndShow`, after which the field shows the current directory, or the typed path when its listing broke part-way |
| `Navigation.AppFrame.TryGoToSelectedDirectory` | src/com/emgariko/diskspacetool/AppFrame.java:138-146 | opens the row's path, with the outcome of `updateStateAndShow`, only when row >= 0, column >= 0 and the row is a directory; otherwise nothing changes |
| `Navigation.LateDeliveryAfterNavigation` | src/com/emgariko/diskspacetool/BackgroundTask.java:45-53 | after navigating away, a late `done` of an old task writes only into its own model; the listing on screen keeps the rows it was opened with |

## Left out

- Where an escaping UncheckedIOException goes: it leaves the handler for the event thread's uncaught-exception handling. The model states the frame's state after it.
- Threads. The model leaves out SwingWorker's background thread, the hand-off of `done` to the event thread, and the interruption done by `cancel(true)`. A task's life is explicit steps instead: `Run` (the worker's `doInBackground` and the recording of its result), `Cancel` and `Done`. The callers of these steps choose their interleaving. What the worker sees of a concurrent `cancel` is the `CancelPoint` parameter; `Run` requires that a walk which stopped on the flag belongs to a task already cancelled. A task cancelled before its worker starts still runs the walk in the model; its result is refused all the same.
- The real filesystem. Listing, attributes and the walk's view of a subtree are parameters: a `FileSystem` snapshot and a `Tree`. The walk runs later than the listing, so the two are not tied together. The order of `walkFileTree` and its symlink handling are the order and shape of the `Tree`.
- An unchecked exception thrown out of `doInBackground` (`ExecutionException` in `done`) is not modelled.
- `String.format("%.2f %s", ...)` and the `double` division of `formatSize`. Only the unit and its integer divisor are modelled.
- The selection save and restore and `fireTableDataChanged` in `setValueAt` (DirectoryTableModel.java:133-142). Also `getColumnCount`, `getColumnName` and the column titles.
- Window layout, listeners, key and mouse decoding, `JOptionPane` dialogs, `System.exit` when the home directory cannot be opened (and an UncheckedIOException escaping the frame's constructor, which likewise leaves no frame), enabling the text field, the row sorter and icon loading. The handlers receive the decoded event as parameters.
- `Path.of(text).normalize()` (a JDK call) is a parameter of `TextFieldEnterPressed`. `table.convertRowIndexToModel(row)` is a parameter of `TryGoToSelectedDirectory`. `Path.toString()` is not modelled: the field holds the path it was set to.
- `SizeWalk.Walk`: totals are unbounded integers. Java's `long totalSize` would wrap past 2^63 - 1 bytes; the model does not state this.
- `TableModel.BackgroundTask.CalsSize`: the same; the result is stated for unbounded sums.
