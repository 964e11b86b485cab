/** The rotating sheet writer (backend/internal/detail/xlsx.go).  A sheet is the sequence
    of its data rows; the job's directory maps file names to saved sheets. */
module Xlsx {
  import opened Basics
  import opened LogRows

  const DEFAULT_ROWS_PER_FILE := 300_000
  const MIN_PER_FILE := 1000
  const MAX_PER_FILE := 1_000_000
  const SHEET_ROWS := 1_048_576  // rows of one worksheet, header included

  /** The default for a number that is not positive, and otherwise the nearest allowed number. */
  function ClampPerFile(n: int): (r: nat)
    ensures MIN_PER_FILE <= r <= MAX_PER_FILE && r + 1 <= SHEET_ROWS
    ensures n <= 0 ==> r == DEFAULT_ROWS_PER_FILE
    ensures n > 0 ==> forall m :: MIN_PER_FILE <= m <= MAX_PER_FILE ==> Distance(n, r) <= Distance(n, m)
  {
    if n <= 0 then DEFAULT_ROWS_PER_FILE
    else if n < MIN_PER_FILE then MIN_PER_FILE
    else if n > MAX_PER_FILE then MAX_PER_FILE
    else n
  }

  // ---------------------------------------------------------------- file names

  function Digit(d: nat): char
    requires d < 10
  {
    "0123456789"[d]
  }

  function Dec(n: nat): (s: string)
    ensures s != []
  {
    if n < 10 then [Digit(n)] else Dec(n / 10) + [Digit(n % 10)]
  }

  /** "%03d" */
  function Pad3(s: string): string
    decreases 3 - |s|
  {
    if |s| >= 3 then s else Pad3("0" + s)
  }

  function DigitValue(c: char): int {
    c as int - '0' as int
  }

  function Val(s: string): int {
    if s == [] then 0 else 10 * Val(s[..|s| - 1]) + DigitValue(s[|s| - 1])
  }

  lemma {:induction false} ValDec(n: nat)
    ensures Val(Dec(n)) == n
  {
    if n < 10 {
      assert Val(Dec(n)[..0]) == 0;
    } else {
      ValDec(n / 10);
      assert Dec(n)[..|Dec(n)| - 1] == Dec(n / 10);
    }
  }

  lemma {:induction false} ValLeadingZero(s: string)
    ensures Val("0" + s) == Val(s)
  {
    if s != [] {
      ValLeadingZero(s[..|s| - 1]);
      assert ("0" + s)[..|s|] == "0" + s[..|s| - 1];
    } else {
      assert ("0" + s)[..0] == [];
    }
  }

  lemma {:induction false} ValPad(s: string)
    ensures Val(Pad3(s)) == Val(s)
    ensures |Pad3(s)| >= 3
    decreases 3 - |s|
  {
    if |s| < 3 {
      ValLeadingZero(s);
      ValPad("0" + s);
    }
  }

  /** The temporary name of part number k, counted from 1. */
  function PartPath(k: nat): string {
    "part-" + Pad3(Dec(k)) + ".xlsx"
  }

  /** The final name of file i of `total`. */
  function FinalName(base: string, i: nat, total: nat): string {
    if total > 1 then base + "_第" + Dec(i + 1) + "部分.xlsx" else base + ".xlsx"
  }

  lemma SliceOf(a: string, b: string, c: string)
    ensures (a + b + c)[|a|..|a| + |b|] == b
  {
  }

  lemma PartPathsDiffer(i: nat, j: nat)
    requires i != j
    ensures PartPath(i) != PartPath(j)
  {
    ValDec(i); ValDec(j);
    ValPad(Dec(i)); ValPad(Dec(j));
    SliceOf("part-", Pad3(Dec(i)), ".xlsx");
    SliceOf("part-", Pad3(Dec(j)), ".xlsx");
    if |PartPath(i)| == |PartPath(j)| {
      assert PartPath(i)[5..|PartPath(i)| - 5] == Pad3(Dec(i));
      assert PartPath(j)[5..|PartPath(j)| - 5] == Pad3(Dec(j));
    }
  }

  lemma FinalNamesDiffer(base: string, i: nat, j: nat, total: nat)
    requires i != j && total > 1
    ensures FinalName(base, i, total) != FinalName(base, j, total)
  {
    ValDec(i + 1); ValDec(j + 1);
    var head, tail := base + "_第", "部分.xlsx";
    SliceOf(head, Dec(i + 1), tail);
    SliceOf(head, Dec(j + 1), tail);
    assert FinalName(base, i, total) == head + Dec(i + 1) + tail;
    assert FinalName(base, j, total) == head + Dec(j + 1) + tail;
  }

  /** The name of file `i` of `total`: alone it has the plain name, and otherwise its number,
      counted from 1, stands between two fixed parts. */
  ghost predicate NamedAs(name: string, base: string, i: nat, total: nat) {
    if total <= 1 then name == base + ".xlsx"
    else
      var head, tail := |base| + 2, |name| - 7;
      && head <= tail && name[..head] == base + "_第" && name[tail..] == "部分.xlsx"
      && Val(name[head..tail]) == i + 1
  }

  lemma FinalNameNumbers(base: string, i: nat, total: nat)
    ensures NamedAs(FinalName(base, i, total), base, i, total)
  {
    if total > 1 {
      var head, tail := base + "_第", "部分.xlsx";
      ValDec(i + 1);
      SliceOf(head, Dec(i + 1), tail);
      assert FinalName(base, i, total) == head + Dec(i + 1) + tail;
      assert |tail| == 7 && |head| == |base| + 2;
    }
  }

  lemma {:induction false} DecEndsInDigit(n: nat)
    ensures '0' <= Dec(n)[|Dec(n)| - 1] <= '9'
  {
  }

  lemma {:induction false} PadKeepsLast(s: string)
    requires s != []
    ensures Pad3(s) != [] && Pad3(s)[|Pad3(s)| - 1] == s[|s| - 1]
    decreases 3 - |s|
  {
    if |s| < 3 {
      PadKeepsLast("0" + s);
    }
  }

  /** Renaming a part never overwrites another one. */
  lemma FinalIsNoPart(base: string, i: nat, k: nat, total: nat)
    requires total > 1
    ensures FinalName(base, i, total) != PartPath(k)
  {
    DecEndsInDigit(k);
    PadKeepsLast(Dec(k));
    var f, p := FinalName(base, i, total), PartPath(k);
    assert f[|f| - 6] == '分';
    assert p[|p| - 6] == Pad3(Dec(k))[|Pad3(Dec(k))| - 1];
  }

  // ---------------------------------------------------------------- the partition

  /** The rows of the files: full files and a last one, which may be empty only alone. */
  function Chunks(rows: seq<LogItem>, perFile: nat): (cs: seq<seq<LogItem>>)
    requires perFile > 0
    ensures cs != []
  {
    if |rows| <= perFile then [rows] else [rows[..perFile]] + Chunks(rows[perFile..], perFile)
  }

  function Concat(cs: seq<seq<LogItem>>): seq<LogItem> {
    if cs == [] then [] else cs[0] + Concat(cs[1..])
  }

  lemma {:induction false} ConcatSnoc(cs: seq<seq<LogItem>>, c: seq<LogItem>)
    ensures Concat(cs + [c]) == Concat(cs) + c
    decreases |cs|
  {
    if cs == [] {
      assert [c][1..] == [];
      assert cs + [c] == [c];
    } else {
      assert (cs + [c])[1..] == cs[1..] + [c];
      ConcatSnoc(cs[1..], c);
    }
  }

  function CeilDiv(n: nat, d: nat): nat
    requires d > 0
  {
    (n + d - 1) / d
  }

  lemma CeilOne(n: nat, d: nat)
    requires 0 < n <= d
    ensures CeilDiv(n, d) == 1
  {
    DivUnique(n + d - 1, d, 1, n - 1);
  }

  lemma CeilStep(n: nat, d: nat)
    requires d > 0 && n > d
    ensures CeilDiv(n, d) == CeilDiv(n - d, d) + 1
  {
    assert n + d - 1 == (n - d + d - 1) + d;
    DivAdd(n - d + d - 1, d);
  }

  lemma DivAdd(x: nat, d: nat)
    requires d > 0
    ensures (x + d) / d == x / d + 1
  {
    assert x + d == (x / d + 1) * d + x % d;
    DivUnique(x + d, d, x / d + 1, x % d);
  }

  lemma DivUnique(x: nat, d: nat, q: nat, r: nat)
    requires d > 0 && x == q * d + r && r < d
    ensures x / d == q
  {
    var q' := x / d;
    assert x == q' * d + x % d;
    assert (q - q') * d == x % d - r;
    assert 0 - d < (q - q') * d < d;
    Bounded(q - q', d);
  }

  lemma Bounded(k: int, d: nat)
    requires 0 - d < k * d < d
    ensures k == 0
  {
    assert k < 1 && k > -1;
  }

  /** In order, nothing lost or repeated. */
  lemma {:induction false} ChunksConcat(rows: seq<LogItem>, perFile: nat)
    requires perFile > 0
    ensures Concat(Chunks(rows, perFile)) == rows
    decreases |rows|
  {
    if |rows| <= perFile {
      assert [rows][1..] == [];
    } else {
      ChunksConcat(rows[perFile..], perFile);
      assert Chunks(rows, perFile)[1..] == Chunks(rows[perFile..], perFile);
      assert rows == rows[..perFile] + rows[perFile..];
    }
  }

  ghost predicate FullButLast(cs: seq<seq<LogItem>>, perFile: nat) {
    forall k :: 0 <= k < |cs| ==> |cs[k]| <= perFile && (k < |cs| - 1 ==> |cs[k]| == perFile)
  }

  /** The files partition the rows: in order, nothing lost or repeated, every file but the
      last full, and max(1, ceil(N / perFile)) files. */
  lemma {:induction false} ChunksPartition(rows: seq<LogItem>, perFile: nat)
    requires perFile > 0
    ensures var cs := Chunks(rows, perFile);
      && Concat(cs) == rows
      && |cs| == (if rows == [] then 1 else CeilDiv(|rows|, perFile))
      && FullButLast(cs, perFile)
      && (|cs| > 1 ==> cs[|cs| - 1] != [])
    decreases |rows|
  {
    ChunksConcat(rows, perFile);
    if |rows| <= perFile {
      if rows != [] {
        CeilOne(|rows|, perFile);
      }
    } else {
      var rest := Chunks(rows[perFile..], perFile);
      ChunksPartition(rows[perFile..], perFile);
      CeilStep(|rows|, perFile);
      assert Chunks(rows, perFile) == [rows[..perFile]] + rest;
    }
  }

  /** Full files followed by a non-empty partial one, or full files alone, are the chunks. */
  lemma {:induction false} FullThenLast(full: seq<seq<LogItem>>, last: seq<LogItem>, perFile: nat)
    requires perFile > 0 && forall k :: 0 <= k < |full| ==> |full[k]| == perFile
    requires |last| <= perFile && (full != [] ==> last != [])
    ensures Chunks(Concat(full) + last, perFile) == full + [last]
    decreases |full|
  {
    if full == [] {
      assert Concat(full) + last == last && full + [last] == [last];
    } else {
      var rows := Concat(full) + last;
      assert rows == full[0] + (Concat(full[1..]) + last);
      assert rows[..perFile] == full[0] && rows[perFile..] == Concat(full[1..]) + last;
      FullThenLast(full[1..], last, perFile);
      assert full + [last] == [full[0]] + (full[1..] + [last]);
    }
  }

  // ---------------------------------------------------------------- the writer

  datatype File = File(name: string, path: string, rows: nat)

  /** Whether creating a sheet, writing a row, saving and renaming succeed. */
  datatype Io = Io(create: bool, write: bool, save: bool, rename: nat -> bool)

  class Writer {
    const base: string
    const perFile: nat
    var isOpen: bool
    var sheet: seq<LogItem>
    var n: nat
    var parts: seq<File>
    var disk: map<string, seq<LogItem>>
    ghost var saved: seq<seq<LogItem>>  // the rows of the saved parts
    ghost var rows: seq<LogItem>        // all rows added so far, in order

    ghost predicate Valid()
      reads this
    {
      && MIN_PER_FILE <= perFile <= MAX_PER_FILE
      && (if isOpen then n == |sheet| < perFile else true)
      && (isOpen && saved != [] ==> sheet != [])
      && |saved| == |parts|
      && (forall k :: 0 <= k < |saved| ==> |saved[k]| == perFile)
      && PartsOnDisk(parts, disk, saved)
      && rows == Concat(saved) + if isOpen then sheet else []
    }

    constructor (base: string, perFile: int)
      ensures Valid() && rows == []
      ensures this.base == base && this.perFile == ClampPerFile(perFile)
    {
      this.base, this.perFile := base, ClampPerFile(perFile);
      isOpen, sheet, n, parts, disk, saved, rows := false, [], 0, [], map[], [], [];
    }

    method Open(io: Io) returns (ok: bool)
      modifies this
      ensures ok == io.create
      ensures if ok then isOpen && sheet == [] && n == 0
              else isOpen == old(isOpen) && sheet == old(sheet) && n == old(n)
      ensures parts == old(parts) && disk == old(disk) && saved == old(saved) && rows == old(rows)
    {
      if !io.create {
        return false;
      }
      isOpen, sheet, n := true, [], 0;
      return true;
    }

    /** Saves the open sheet under the next part name. */
    method Rotate(io: Io) returns (ok: bool)
      requires |saved| == |parts| && PartsOnDisk(parts, disk, saved) && (isOpen ==> n == |sheet|)
      modifies this
      ensures ok == (!old(isOpen) || io.save)
      ensures if ok && old(isOpen) then !isOpen && saved == old(saved) + [old(sheet)]
              else isOpen == old(isOpen) && saved == old(saved)
      ensures sheet == old(sheet) && n == old(n) && rows == old(rows)
      ensures |saved| == |parts| && PartsOnDisk(parts, disk, saved)
    {
      if !isOpen {
        return true;
      }
      if !io.save {
        return false;
      }
      var path := PartPath(|parts| + 1);
      forall k | 0 <= k < |parts| ensures parts[k].path != path {
        PartPathsDiffer(k + 1, |parts| + 1);
      }
      disk := disk[path := sheet];
      parts := parts + [File("", path, n)];
      saved := saved + [sheet];
      isOpen := false;
      return true;
    }

    method Add(r: LogItem, io: Io) returns (ok: bool)
      requires Valid()
      modifies this
      ensures ok ==> Valid() && rows == old(rows) + [r]
      ensures !ok ==> !(io.create && io.write && io.save)
      ensures ok ==> io.write && (!old(isOpen) ==> io.create) && (!isOpen ==> io.save)
    {
      if !isOpen {
        ok := Open(io);
        if !ok {
          return;
        }
      }
      if !io.write {
        return false;
      }
      assert n + 2 <= SHEET_ROWS;  // the row's position in the sheet, after the header
      sheet := sheet + [r];
      n := n + 1;
      rows := rows + [r];
      assert Concat(saved) + sheet == rows;
      if n >= perFile {
        ConcatSnoc(saved, sheet);
        ok := Rotate(io);
        assert ok ==> rows == Concat(saved) + [];
        return;
      }
      return true;
    }

    /** Saves what is open (or an empty sheet when nothing was added) and gives the files
        their final names. */
    method Close(io: Io) returns (ok: bool, files: seq<File>)
      requires Valid()
      modifies this
      ensures ok ==> Delivered(files, disk, Chunks(old(rows), perFile), base)
      ensures !ok ==> !(io.create && io.save && forall k: nat :: io.rename(k))
      ensures ok ==> (old(isOpen) || old(parts) == [] ==> io.save) && forall k: nat :: k < |files| ==> io.rename(k)
      ensures ok && !old(isOpen) && old(parts) == [] ==> io.create
    {
      if !isOpen && |parts| == 0 {
        ok := Open(io);
        if !ok {
          return false, [];
        }
        assert rows == Concat(saved) + sheet;
      }
      ghost var wasOpen, before, last := isOpen, saved, sheet;
      ok := Rotate(io);
      if !ok {
        return false, [];
      }
      SavedAreChunks(before, wasOpen, last, rows, perFile);
      assert saved == Chunks(rows, perFile);
      ok := RenameAll(io);
      return ok, parts;
    }

    method RenameAll(io: Io) returns (ok: bool)
      requires Renamed(parts, disk, saved, base, 0)
      modifies `parts, `disk
      ensures ok ==> Delivered(parts, disk, saved, base) && forall k: nat :: k < |parts| ==> io.rename(k)
      ensures !ok ==> exists k: nat :: !io.rename(k)
    {
      var total := |parts|;
      for i := 0 to total
        invariant total == |parts| && Renamed(parts, disk, saved, base, i) && forall k: nat :: k < i ==> io.rename(k)
      {
        if !io.rename(i) {
          return false;
        }
        var name := FinalName(base, i, total);
        RenameKeeps(parts, disk, saved, base, i);
        disk := Rename(disk, parts[i].path, name);
        parts := parts[i := File(name, name, parts[i].rows)];
      }
      ok := true;
    }
  }

  function Rename(disk: map<string, seq<LogItem>>, from: string, to: string): map<string, seq<LogItem>>
    requires from in disk
  {
    (map p | p in disk && p != from :: disk[p])[to := disk[from]]
  }

  lemma SavedAreChunks(full: seq<seq<LogItem>>, isOpen: bool, sheet: seq<LogItem>, rows: seq<LogItem>, perFile: nat)
    requires perFile > 0 && forall k :: 0 <= k < |full| ==> |full[k]| == perFile
    requires rows == Concat(full) + if isOpen then sheet else []
    requires isOpen ==> |sheet| <= perFile && (full != [] ==> sheet != [])
    requires !isOpen ==> full != []
    ensures Chunks(rows, perFile) == if isOpen then full + [sheet] else full
  {
    if isOpen {
      FullThenLast(full, sheet, perFile);
    } else {
      var front, last := full[..|full| - 1], full[|full| - 1];
      assert full == front + [last];
      ConcatSnoc(front, last);
      assert rows == Concat(front) + last;
      FullThenLast(front, last, perFile);
    }
  }

  /** The delivered files: file k has its final name and holds the k-th chunk. */
  ghost predicate Delivered(files: seq<File>, disk: map<string, seq<LogItem>>, chunks: seq<seq<LogItem>>, base: string)
  {
    |files| == |chunks| && Renamed(files, disk, chunks, base, |files|)
  }

  /** The first `i` parts have their final names, the others still their temporary ones. */
  ghost predicate Renamed(parts: seq<File>, disk: map<string, seq<LogItem>>, saved: seq<seq<LogItem>>,
                          base: string, i: nat)
  {
    && |saved| == |parts|
    && (forall k :: 0 <= k < |parts| ==>
          && parts[k].path == (if k < i then FinalName(base, k, |parts|) else PartPath(k + 1))
          && (k < i ==> parts[k].name == parts[k].path)
          && parts[k].rows == |saved[k]|
          && parts[k].path in disk && disk[parts[k].path] == saved[k])
  }

  /** A rename moves its part and touches no other file. */
  lemma RenameKeeps(parts: seq<File>, disk: map<string, seq<LogItem>>, saved: seq<seq<LogItem>>, base: string, i: nat)
    requires i < |parts| && Renamed(parts, disk, saved, base, i)
    ensures var name := FinalName(base, i, |parts|);
      Renamed(parts[i := File(name, name, parts[i].rows)], Rename(disk, parts[i].path, name), saved, base, i + 1)
  {
    var name := FinalName(base, i, |parts|);
    forall k | 0 <= k < |parts| && k != i
      ensures parts[k].path != name && parts[k].path != parts[i].path
    {
      if k < i {
        FinalNamesDiffer(base, i, k, |parts|);
        FinalIsNoPart(base, k, i + 1, |parts|);
      } else {
        FinalIsNoPart(base, i, k + 1, |parts|);
        PartPathsDiffer(k + 1, i + 1);
      }
    }
  }

  function Contents(files: seq<File>, disk: map<string, seq<LogItem>>): seq<seq<LogItem>>
    requires forall k :: 0 <= k < |files| ==> files[k].path in disk
  {
    seq(|files|, k requires 0 <= k < |files| => disk[files[k].path])
  }

  lemma DeliveredContents(files: seq<File>, disk: map<string, seq<LogItem>>, chunks: seq<seq<LogItem>>, base: string)
    requires Delivered(files, disk, chunks, base)
    ensures forall k :: 0 <= k < |files| ==> files[k].path in disk && files[k].rows == |chunks[k]|
    ensures Contents(files, disk) == chunks
    ensures forall i, j :: 0 <= i < j < |files| ==> files[i].name != files[j].name
  {
    forall i, j | 0 <= i < j < |files| ensures files[i].name != files[j].name {
      FinalNamesDiffer(base, i, j, |files|);
    }
  }

  /** The files of a finished export: distinct names, rows in order and complete, every
      file but the last full, and none beyond a worksheet. */
  lemma DeliveredFiles(files: seq<File>, disk: map<string, seq<LogItem>>, rows: seq<LogItem>, perFile: nat,
                       base: string)
    requires MIN_PER_FILE <= perFile <= MAX_PER_FILE && Delivered(files, disk, Chunks(rows, perFile), base)
    ensures forall k :: 0 <= k < |files| ==> files[k].path in disk && files[k].rows <= perFile < SHEET_ROWS
    ensures Concat(Contents(files, disk)) == rows
    ensures |files| == if rows == [] then 1 else CeilDiv(|rows|, perFile)
    ensures forall k :: 0 <= k < |files| - 1 ==> files[k].rows == perFile
    ensures forall k :: 0 <= k < |files| ==> NamedAs(files[k].name, base, k, |files|)
    ensures forall i, j :: 0 <= i < j < |files| ==> files[i].name != files[j].name
  {
    var chunks := Chunks(rows, perFile);
    ChunksPartition(rows, perFile);
    DeliveredContents(files, disk, chunks, base);
    forall k | 0 <= k < |files| ensures NamedAs(files[k].name, base, k, |files|) {
      FinalNameNumbers(base, k, |files|);
    }
  }

  /** Part k is saved under its temporary name. */
  ghost predicate PartsOnDisk(parts: seq<File>, disk: map<string, seq<LogItem>>, saved: seq<seq<LogItem>>) {
    |saved| == |parts| &&
    forall k :: 0 <= k < |parts| ==>
      && parts[k].path == PartPath(k + 1)
      && parts[k].rows == |saved[k]|
      && parts[k].path in disk && disk[parts[k].path] == saved[k]
  }
}
