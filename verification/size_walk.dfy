/** The directory-size walk of a background task: `Files.walkFileTree` over
    the task's root with a `CancellableDirectorySizeCalculator` as visitor.

    The walk runs on a worker thread, later than the listing that spawned it,
    so the part of the disk it sees is given as a `Tree`. What the worker sees
    when the visitor asks `task.isCancelled()` is given as a `CancelPoint`:
    cancellation is write-once, so from some visitFile check on every check
    sees the flag set. */
module SizeWalk {

  /** What `Files.walkFileTree` meets below the root, in the order it meets it.
      - `Entry(size)`: an entry that is not a directory (regular file, link,
        device, ...); the walk calls `visitFile` with its `attrs.size()`.
      - `Unreadable`: an entry whose attributes cannot be read, or a directory
        that cannot be opened; the walk calls `visitFileFailed`.
      - `Folder(entries, breaks)`: a directory whose listing yields `entries`;
        when `breaks` holds, reading the listing fails after them and the
        walk hands that IOException to `postVisitDirectory`, which
        (SimpleFileVisitor's default) throws it out of the walk. */
  datatype Tree =
    | Entry(size: nat)
    | Unreadable
    | Folder(entries: seq<Tree>, breaks: bool)

  /** When the cancellation flag becomes visible to the walk: `Never`, or from
      visitFile check number `check` (counting from 0) onwards. */
  datatype CancelPoint = Never | Before(check: nat)

  /** Whether the visitFile check number `check` sees the task cancelled. */
  predicate Observed(c: CancelPoint, check: nat)
  {
    c.Before? && c.check <= check
  }

  /** How a walk stands: still going, stopped by a TERMINATE from visitFile,
      or ended by an IOException escaping `walkFileTree`. */
  datatype Status = Walking | Stopped | Threw

  /** The visitor's running `totalSize`, the number of files whose size was
      added so far (which is also the number of the next visitFile check),
      and the walk's status. */
  datatype Acc = Acc(total: int, visits: nat, status: Status)

  /** The walk as a fold over the tree: each `Entry` is one visitFile, which
      terminates the whole walk when it sees the flag and otherwise adds the
      entry's size; `Unreadable` is a visitFileFailed, which continues; a
      breaking `Folder` throws once its entries are walked. */
  function Walk(t: Tree, acc: Acc, c: CancelPoint): (r: Acc)
    ensures r.total >= acc.total && r.visits >= acc.visits
    ensures acc.status != Walking ==> r == acc
    decreases t, 1
  {
    if acc.status != Walking then acc
    else match t
      case Entry(size) =>
        if Observed(c, acc.visits) then acc.(status := Stopped)
        else acc.(total := acc.total + size, visits := acc.visits + 1)
      case Unreadable => acc
      case Folder(entries, breaks) =>
        var a := WalkAll(entries, acc, c);
        if a.status == Walking && breaks then a.(status := Threw) else a
  }

  /** The walk over the entries of one directory, in listing order. */
  function WalkAll(ts: seq<Tree>, acc: Acc, c: CancelPoint): (r: Acc)
    ensures r.total >= acc.total && r.visits >= acc.visits
    decreases ts, 0
  {
    if ts == [] then acc
    else Walk(ts[|ts| - 1], WalkAll(ts[..|ts| - 1], acc, c), c)
  }

  /** What `calsSize` returns for a finished walk: -1 when an IOException
      escaped, the visitor's total otherwise. */
  function SizeResult(r: Acc): int
  {
    if r.status == Threw then -1 else r.total
  }

  /** The sizes handed to visitFile by a walk that is never cancelled and
      never throws, in visiting order. */
  function Leaves(t: Tree): seq<nat>
    decreases t, 1
  {
    match t
    case Entry(size) => [size]
    case Unreadable => []
    case Folder(entries, _) => LeavesAll(entries)
  }

  function LeavesAll(ts: seq<Tree>): seq<nat>
    decreases ts, 0
  {
    if ts == [] then [] else LeavesAll(ts[..|ts| - 1]) + Leaves(ts[|ts| - 1])
  }

  /** Whether some directory in the tree fails while being listed. */
  predicate Breaks(t: Tree)
    decreases t, 1
  {
    match t
    case Folder(entries, breaks) => breaks || BreaksSome(entries)
    case _ => false
  }

  predicate BreaksSome(ts: seq<Tree>)
    decreases ts, 0
  {
    ts != [] && (BreaksSome(ts[..|ts| - 1]) || Breaks(ts[|ts| - 1]))
  }

  /** Reference definition: the number of bytes in the tree, counting every
      non-directory entry and nothing for unreadable ones. */
  function TreeSize(t: Tree): nat
    decreases t, 1
  {
    match t
    case Entry(size) => size
    case Unreadable => 0
    case Folder(entries, _) => TotalSize(entries)
  }

  function TotalSize(ts: seq<Tree>): nat
    decreases ts, 0
  {
    if ts == [] then 0 else TotalSize(ts[..|ts| - 1]) + TreeSize(ts[|ts| - 1])
  }

  function Sum(s: seq<nat>): nat
  {
    if s == [] then 0 else Sum(s[..|s| - 1]) + s[|s| - 1]
  }

  lemma {:induction false} SumConcat(a: seq<nat>, b: seq<nat>)
    ensures Sum(a + b) == Sum(a) + Sum(b)
    decreases |b|
  {
    if b == [] {
      assert a + b == a;
    } else {
      assert (a + b)[..|a + b| - 1] == a + b[..|b| - 1];
      SumConcat(a, b[..|b| - 1]);
    }
  }

  /** The visitor adds exactly the sizes of the files it is shown: the sum of
      all sizes passed to visitFile is the size of the tree. */
  lemma {:induction false} LeavesSumIsTreeSize(t: Tree)
    ensures Sum(Leaves(t)) == TreeSize(t)
    decreases t, 1
  {
    match t
    case Entry(size) =>
      assert [size][..0] == [];
    case Unreadable =>
    case Folder(entries, _) =>
      LeavesAllSumIsTotalSize(entries);
  }

  lemma {:induction false} LeavesAllSumIsTotalSize(ts: seq<Tree>)
    ensures Sum(LeavesAll(ts)) == TotalSize(ts)
    decreases ts, 0
  {
    if ts != [] {
      LeavesAllSumIsTotalSize(ts[..|ts| - 1]);
      LeavesSumIsTreeSize(ts[|ts| - 1]);
      SumConcat(LeavesAll(ts[..|ts| - 1]), Leaves(ts[|ts| - 1]));
    }
  }

  /** Walking from `acc` to `r` over files of sizes `leaves` (in visiting
      order) in a tree that breaks when `breaks` holds: with n the number of
      files visited, the walk added exactly the first n sizes; it ends going
      only after visiting every file of a tree that never breaks; it stops
      only at a file it did not add, and only because that check saw the
      flag; and it throws only where a listing breaks. */
  ghost predicate AddsPrefix(r: Acc, acc: Acc, leaves: seq<nat>, breaks: bool, c: CancelPoint)
  {
    r.visits >= acc.visits &&
    var n := r.visits - acc.visits;
    n <= |leaves| &&
    r.total == acc.total + Sum(leaves[..n]) &&
    (r.status == Walking ==> n == |leaves| && !breaks) &&
    (r.status == Stopped ==> n < |leaves| && Observed(c, r.visits)) &&
    (r.status == Threw ==> breaks)
  }

  /** Two walks in a row, the second one only if the first is still going,
      add a prefix of the concatenated sizes. */
  lemma ComposePrefix(acc: Acc, a: Acc, r: Acc, li: seq<nat>, ll: seq<nat>, bi: bool, bl: bool, c: CancelPoint)
    requires AddsPrefix(a, acc, li, bi, c)
    requires a.status == Walking ==> AddsPrefix(r, a, ll, bl, c)
    requires a.status != Walking ==> r == a
    ensures AddsPrefix(r, acc, li + ll, bi || bl, c)
  {
    var n0 := a.visits - acc.visits;
    if a.status == Walking {
      var m := r.visits - a.visits;
      assert li[..n0] == li;
      SumPrefixOfConcat(li, ll, m);
    } else {
      assert (li + ll)[..n0] == li[..n0];
    }
  }

  /** Summing a prefix that covers all of `a` and the first m of `b`. */
  lemma SumPrefixOfConcat(a: seq<nat>, b: seq<nat>, m: nat)
    requires m <= |b|
    ensures Sum((a + b)[..|a| + m]) == Sum(a) + Sum(b[..m])
  {
    assert (a + b)[..|a| + m] == a + b[..m];
    SumConcat(a, b[..m]);
  }

  /** The main fact about a walk that starts out going: it adds a prefix of
      the tree's file sizes, in the sense of `AddsPrefix`. */
  lemma {:induction false} WalkAddsVisitedPrefix(t: Tree, acc: Acc, c: CancelPoint)
    requires acc.status == Walking
    ensures AddsPrefix(Walk(t, acc, c), acc, Leaves(t), Breaks(t), c)
    decreases t, 1
  {
    match t
    case Entry(size) =>
      assert [size][..0] == [];
      assert [size][..1] == [size];
    case Unreadable =>
      assert Leaves(t)[..0] == [];
    case Folder(entries, _) =>
      WalkAllAddsVisitedPrefix(entries, acc, c);
  }

  lemma {:induction false} WalkAllAddsVisitedPrefix(ts: seq<Tree>, acc: Acc, c: CancelPoint)
    requires acc.status == Walking
    ensures AddsPrefix(WalkAll(ts, acc, c), acc, LeavesAll(ts), BreaksSome(ts), c)
    decreases ts, 0
  {
    if ts == [] {
      assert LeavesAll(ts)[..0] == [];
    } else {
      var init, last := ts[..|ts| - 1], ts[|ts| - 1];
      var a := WalkAll(init, acc, c);
      var r := Walk(last, a, c);
      assert WalkAll(ts, acc, c) == r;
      assert LeavesAll(ts) == LeavesAll(init) + Leaves(last);
      assert BreaksSome(ts) == (BreaksSome(init) || Breaks(last));
      WalkAllAddsVisitedPrefix(init, acc, c);
      if a.status == Walking {
        WalkAddsVisitedPrefix(last, a, c);
      }
      ComposePrefix(acc, a, r, LeavesAll(init), Leaves(last), BreaksSome(init), Breaks(last), c);
    }
  }

  /** A walk that did not stop at a cancellation check, whatever flag it
      was given, went all the way: it ends in an IOException exactly when some
      listing in the tree breaks, and otherwise has added the size of the
      whole tree. So `calsSize` returns -1 or that size, never a part. */
  lemma UnstoppedWalkSize(t: Tree, c: CancelPoint)
    requires Walk(t, Acc(0, 0, Walking), c).status != Stopped
    ensures var r := Walk(t, Acc(0, 0, Walking), c);
      (r.status == Threw <==> Breaks(t)) &&
      SizeResult(r) == if Breaks(t) then -1 else TreeSize(t)
  {
    WalkAddsVisitedPrefix(t, Acc(0, 0, Walking), c);
    LeavesSumIsTreeSize(t);
    assert Leaves(t)[..|Leaves(t)|] == Leaves(t);
  }

  /** A walk that is never cancelled never stops early, so it goes all the
      way: `calsSize` gives -1 when some listing breaks and the size of the
      whole tree otherwise. */
  lemma UncancelledWalkSize(t: Tree)
    ensures var r := Walk(t, Acc(0, 0, Walking), Never);
      (r.status == Threw <==> Breaks(t)) &&
      r.status != Stopped &&
      SizeResult(r) == if Breaks(t) then -1 else TreeSize(t)
  {
    WalkAddsVisitedPrefix(t, Acc(0, 0, Walking), Never);
    UnstoppedWalkSize(t, Never);
  }

  /** A walk whose task was cancelled before it started adds no size at all:
      the first visitFile already sees the flag, so a tree with files in it
      never completes (it stops there, or throws earlier). */
  lemma CancelledBeforeStartAddsNothing(t: Tree)
    ensures var r := Walk(t, Acc(0, 0, Walking), Before(0));
      r.total == 0 && r.visits == 0 && (Leaves(t) != [] ==> r.status != Walking)
  {
    WalkAddsVisitedPrefix(t, Acc(0, 0, Walking), Before(0));
    StoppedAtFirstCheck(t, Acc(0, 0, Walking));
    assert Leaves(t)[..0] == [];
  }

  /** With the flag seen from the very first check, no file is added. */
  lemma {:induction false} StoppedAtFirstCheck(t: Tree, acc: Acc)
    requires acc.status == Walking && acc.visits == 0
    ensures Walk(t, acc, Before(0)).visits == 0
    ensures Walk(t, acc, Before(0)).status == Walking ==> Leaves(t) == []
    decreases t, 1
  {
    match t
    case Entry(_) =>
    case Unreadable =>
    case Folder(entries, _) =>
      StoppedAtFirstCheckAll(entries, acc);
  }

  lemma {:induction false} StoppedAtFirstCheckAll(ts: seq<Tree>, acc: Acc)
    requires acc.status == Walking && acc.visits == 0
    ensures WalkAll(ts, acc, Before(0)).visits == 0
    ensures WalkAll(ts, acc, Before(0)).status == Walking ==> LeavesAll(ts) == []
    decreases ts, 0
  {
    if ts != [] {
      StoppedAtFirstCheckAll(ts[..|ts| - 1], acc);
      var a := WalkAll(ts[..|ts| - 1], acc, Before(0));
      if a.status == Walking {
        StoppedAtFirstCheck(ts[|ts| - 1], a);
      }
    }
  }

  /** Once a walk over a prefix of a directory's entries has stopped or
      thrown, the rest of the entries change nothing. */
  lemma {:induction false} WalkAllAfterEnd(ts: seq<Tree>, i: nat, acc: Acc, c: CancelPoint)
    requires i <= |ts|
    requires WalkAll(ts[..i], acc, c).status != Walking
    ensures WalkAll(ts, acc, c) == WalkAll(ts[..i], acc, c)
    decreases |ts| - i
  {
    if i < |ts| {
      var init := ts[..|ts| - 1];
      assert init[..i] == ts[..i];
      WalkAllAfterEnd(init, i, acc, c);
    } else {
      assert ts[..i] == ts;
    }
  }

  /** `FileVisitResult`, as far as this visitor uses it. */
  datatype FileVisitResult = Continue | Terminate

  /** The visitor: a running total that visitFile adds to. Where the source
      calls `task.isCancelled()`, visitFile is told what that call returns. */
  class CancellableDirectorySizeCalculator {
    var totalSize: int

    constructor ()
      ensures totalSize == 0
    {
      totalSize := 0;
    }

    /** A visited file: terminate the walk if the task is cancelled, otherwise
        add the file's size and continue. */
    method VisitFile(size: nat, cancelled: bool) returns (r: FileVisitResult)
      modifies this
      ensures r == Terminate <==> cancelled
      ensures totalSize == if cancelled then old(totalSize) else old(totalSize) + size
    {
      if cancelled {
        return Terminate;
      }
      totalSize := totalSize + size;
      return Continue;
    }

    /** A file that could not be visited is skipped: the walk continues and
        the total is untouched. */
    method VisitFileFailed() returns (r: FileVisitResult)
      ensures r == Continue
    {
      return Continue;
    }

    method GetTotalSize() returns (s: int)
      ensures s == totalSize
    {
      return totalSize;
    }
  }

  /** `Files.walkFileTree(path, calculator)` driving the visitor over the tree
      (which is the library's part, given here so that the visitor's total can
      be followed): it returns how the walk ended and the number of files
      whose size was added, and leaves the visitor's total as the fold says. */
  method WalkFileTree(t: Tree, visitor: CancellableDirectorySizeCalculator, c: CancelPoint, visits: nat)
    returns (status: Status, visited: nat)
    modifies visitor
    ensures Acc(visitor.totalSize, visited, status) == Walk(t, Acc(old(visitor.totalSize), visits, Walking), c)
    decreases t
  {
    match t
    case Entry(size) =>
      var res := visitor.VisitFile(size, Observed(c, visits));
      if res == Terminate {
        return Stopped, visits;
      }
      return Walking, visits + 1;
    case Unreadable =>
      var _ := visitor.VisitFileFailed();
      return Walking, visits;
    case Folder(entries, breaks) =>
      ghost var start := Acc(old(visitor.totalSize), visits, Walking);
      status, visited := Walking, visits;
      var i := 0;
      while i < |entries| && status == Walking
        invariant 0 <= i <= |entries|
        invariant Acc(visitor.totalSize, visited, status) == WalkAll(entries[..i], start, c)
      {
        assert entries[..i + 1][..i] == entries[..i];
        status, visited := WalkFileTree(entries[i], visitor, c, visited);
        i := i + 1;
      }
      if i < |entries| {
        WalkAllAfterEnd(entries, i, start, c);
      } else {
        assert entries[..i] == entries;
      }
      if status == Walking && breaks {
        // postVisitDirectory rethrows the listing's IOException
        status := Threw;
      }
  }
}
