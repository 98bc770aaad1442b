// spdlog's rotating file sink (sinks/file_sinks.h): file 0 is appended to, and
// before it would grow past the limit the files are renamed i -> i + 1, the
// oldest one is removed and file 0 starts again.
//
// File operations succeed; sizes are below the range of size_t.
module RotatingSink {
  import opened Lists
  import opened Wrappers

  function Concat(chunks: seq<string>): string {
    if chunks == [] then "" else Concat(chunks[..|chunks| - 1]) + chunks[|chunks| - 1]
  }

  /** A file as the chunks it was written in: its content before the sink was opened is
      one chunk, then one chunk per message. */
  type File = seq<string>

  /** The promise: files 0..max by age, newest first, some of which may not exist, and
      everything that rotations removed, oldest first. */
  datatype Archive = Archive(files: seq<Option<File>>, dropped: File)

  function Chunks(f: Option<File>): File {
    if f.Some? then f.value else []
  }

  /** All chunks from the oldest file to the newest. */
  function OldestFirst(files: seq<Option<File>>): File {
    if files == [] then []
    else OldestFirst(files[1..]) + Chunks(files[0])
  }

  /** Everything ever written, as far as the archive can tell. */
  function History(a: Archive): File {
    a.dropped + OldestFirst(a.files)
  }

  function Shift(a: Archive): Archive
    requires a.files != []
  {
    var last := |a.files| - 1;
    Archive([Some([])] + a.files[..last], a.dropped + Chunks(a.files[last]))
  }

  function Append(a: Archive, maxSize: nat, msg: string): Archive
    requires a.files != [] && a.files[0].Some?
  {
    var b := if |Concat(a.files[0].value)| + |msg| > maxSize then Shift(a) else a;
    b.(files := b.files[0 := Some(b.files[0].value + [msg])])
  }

  lemma ConcatAppend(chunks: seq<string>, msg: string)
    ensures Concat(chunks + [msg]) == Concat(chunks) + msg
  {
    assert (chunks + [msg])[..|chunks|] == chunks;
  }

  function Content(disk: map<nat, string>, i: nat): Option<string> {
    if i in disk then Some(disk[i]) else None
  }

  /** File j once the files from i up have been renamed to the next number. */
  function ContentAt(was: map<nat, string>, i: nat, max: nat, j: nat): Option<string> {
    if j > max || j < i || i == j == max then Content(was, j)
    else if j == i then None
    else Content(was, j - 1)
  }

  ghost predicate Renamed(was: map<nat, string>, now: map<nat, string>, i: nat, max: nat) {
    forall j: nat :: Content(now, j) == ContentAt(was, i, max, j)
  }

  /** One turn of the loop in _rotate: file i is removed and file i - 1 gets its name. */
  lemma RenameOne(was: map<nat, string>, before: map<nat, string>, after: map<nat, string>, i: nat, max: nat)
    requires 0 < i <= max && Renamed(was, before, i, max)
    requires var rest := if i in before then before - {i} else before;
      after == if i - 1 in rest then rest[i := rest[i - 1]] - {i - 1} else rest
    ensures Renamed(was, after, i - 1, max)
  {
    forall j: nat ensures Content(after, j) == ContentAt(was, i - 1, max, j) {
      assert Content(before, j) == ContentAt(was, i, max, j);
      assert Content(before, i - 1) == ContentAt(was, i, max, i - 1);
      assert Content(after, j) == if j == i then Content(before, i - 1) else if j == i - 1 then None else Content(before, j);
    }
  }

  lemma AllRenamed(was: map<nat, string>, now: map<nat, string>, max: nat)
    requires Renamed(was, now, 0, max)
    ensures forall j: nat :: 1 <= j <= max ==> (j in now <==> j - 1 in was) && (j in now ==> now[j] == was[j - 1])
    ensures forall j: nat :: j > max ==> (j in now <==> j in was) && (j in now ==> now[j] == was[j])
  {
    forall j: nat | j >= 1
      ensures 1 <= j <= max ==> (j in now <==> j - 1 in was) && (j in now ==> now[j] == was[j - 1])
      ensures j > max ==> (j in now <==> j in was) && (j in now ==> now[j] == was[j])
    {
      assert Content(now, j) == ContentAt(was, 0, max, j);
    }
  }

  class RotatingSink {
    const maxSize: nat
    const maxFiles: nat
    var disk: map<nat, string>  // the numbered files that exist
    var currentSize: nat
    ghost var archive: Archive

    /** The files on disk are those of the archive. */
    ghost predicate OnDisk()
      reads this
    {
      && |archive.files| == maxFiles + 1
      && forall i :: 0 <= i <= maxFiles ==>
           && (i in disk <==> archive.files[i].Some?)
           && (i in disk ==> disk[i] == Concat(archive.files[i].value))
    }

    ghost predicate Valid()
      reads this
    {
      OnDisk() && 0 in disk && currentSize == |disk[0]|
    }

    constructor (maxSize: nat, maxFiles: nat, disk: map<nat, string>)
      ensures Valid() && this.maxSize == maxSize && this.maxFiles == maxFiles
      ensures archive.dropped == []
      ensures forall i :: 0 <= i <= maxFiles ==>
        archive.files[i] == if i in disk then Some([disk[i]]) else if i == 0 then Some([""]) else None
    {
      this.maxSize, this.maxFiles := maxSize, maxFiles;
      var content := if 0 in disk then disk[0] else "";
      this.disk := disk[0 := content];
      currentSize := |content|;
      archive := Archive(
        seq(maxFiles + 1, i => if i == 0 then Some([content]) else if i in disk then Some([disk[i]]) else None), []);
      new;
      assert forall chunk :: Concat([chunk]) == chunk by {
        forall chunk ensures Concat([chunk]) == chunk {
          assert [chunk][..0] == [];
        }
      }
    }

    method SinkIt(msg: string)
      requires Valid()
      modifies this
      ensures Valid() && archive == Append(old(archive), maxSize, msg)
      ensures forall i :: i > maxFiles ==> (i in disk <==> i in old(disk)) && (i in disk ==> disk[i] == old(disk[i]))
    {
      currentSize := currentSize + |msg|;
      if currentSize > maxSize {
        Rotate();
        currentSize := |msg|;
      }
      ConcatAppend(archive.files[0].value, msg);
      disk := disk[0 := disk[0] + msg];
      archive := archive.(files := archive.files[0 := Some(archive.files[0].value + [msg])]);
    }

    method Rotate()
      requires OnDisk()
      modifies this`disk, this`archive
      ensures OnDisk() && archive == Shift(old(archive)) && 0 in disk && disk[0] == ""
      ensures forall i :: i > maxFiles ==> (i in disk <==> i in old(disk)) && (i in disk ==> disk[i] == old(disk[i]))
    {
      var i := maxFiles;
      while i > 0
        invariant 0 <= i <= maxFiles
        invariant Renamed(old(disk), disk, i, maxFiles)
        modifies this`disk
      {
        ghost var before := disk;
        if i in disk {
          disk := disk - {i};
        }
        if i - 1 in disk {
          disk := disk[i := disk[i - 1]] - {i - 1};
        }
        RenameOne(old(disk), before, disk, i, maxFiles);
        i := i - 1;
      }
      AllRenamed(old(disk), disk, maxFiles);
      disk := disk[0 := ""];
      archive := Shift(archive);
    }
  }

  // ----- what every run of SinkIt guarantees -----

  ghost predicate Usable(a: Archive) {
    a.files != [] && a.files[0].Some?
  }

  function AppendAll(a: Archive, maxSize: nat, msgs: seq<string>): (b: Archive)
    requires Usable(a)
    ensures Usable(b)
  {
    if msgs == [] then a else Append(AppendAll(a, maxSize, msgs[..|msgs| - 1]), maxSize, msgs[|msgs| - 1])
  }

  lemma {:induction false} OldestFirstSplit(files: seq<Option<File>>)
    requires files != []
    ensures var last := |files| - 1;
      OldestFirst(files) == Chunks(files[last]) + OldestFirst(files[..last])
  {
    var last := |files| - 1;
    if last > 0 {
      var rest, mid := files[1..], files[1..last];
      OldestFirstSplit(rest);
      assert rest[..last - 1] == mid == files[..last][1..];
      Regroup(Chunks(files[last]), OldestFirst(mid), Chunks(files[0]));
    } else {
      DropEmpty(Chunks(files[0]));
      assert Chunks(files[0]) + [] == Chunks(files[0]);
    }
  }

  lemma ShiftKeepsHistory(a: Archive)
    requires a.files != []
    ensures History(Shift(a)) == History(a)
  {
    var last := |a.files| - 1;
    OldestFirstSplit(a.files);
    var shifted := Shift(a).files;
    assert shifted[1..] == a.files[..last];
  }

  lemma AppendAddsToHistory(a: Archive, maxSize: nat, msg: string)
    requires Usable(a)
    ensures History(Append(a, maxSize, msg)) == History(a) + [msg]
  {
    ShiftKeepsHistory(a);
    var b := if |Concat(a.files[0].value)| + |msg| > maxSize then Shift(a) else a;
    var c := Append(a, maxSize, msg);
    assert c.files[1..] == b.files[1..];
  }

  lemma Chain(start: File, mid: File, end: File, a: File, b: File)
    requires mid == start + a && end == mid + b
    ensures end == start + (a + b)
  {
    Regroup(start, a, b);
  }

  /** Over every run the dropped chunks followed by the files, oldest first, are the initial
      contents followed by all messages: nothing is lost inside, reordered or split. */
  lemma {:induction false} HistoryIsComplete(a: Archive, maxSize: nat, msgs: seq<string>)
    requires Usable(a)
    ensures History(AppendAll(a, maxSize, msgs)) == History(a) + msgs
  {
    if msgs != [] {
      var n := |msgs| - 1;
      HistoryIsComplete(a, maxSize, msgs[..n]);
      AppendAddsToHistory(AppendAll(a, maxSize, msgs[..n]), maxSize, msgs[n]);
      assert msgs == msgs[..n] + [msgs[n]];
      Chain(History(a), History(AppendAll(a, maxSize, msgs[..n])), History(AppendAll(a, maxSize, msgs)),
            msgs[..n], [msgs[n]]);
    }
  }

  /** From a to b nothing was dropped, or exactly the whole oldest file. */
  ghost predicate DropsWholeFiles(a: Archive, b: Archive)
    requires a.files != []
  {
    b.dropped == a.dropped || b.dropped == a.dropped + Chunks(a.files[|a.files| - 1])
  }

  /** A file is within the limit unless it holds one chunk only. */
  predicate FitsOrSingle(f: Option<File>, maxSize: nat) {
    f.Some? ==> |Concat(f.value)| <= maxSize || |f.value| <= 1
  }

  ghost predicate AllFit(a: Archive, maxSize: nat) {
    forall i :: 0 <= i < |a.files| ==> FitsOrSingle(a.files[i], maxSize)
  }

  lemma AppendKeepsLimit(a: Archive, maxSize: nat, msg: string)
    requires Usable(a) && AllFit(a, maxSize)
    ensures AllFit(Append(a, maxSize, msg), maxSize)
    ensures |Append(a, maxSize, msg).files| == |a.files|
    ensures DropsWholeFiles(a, Append(a, maxSize, msg))
  {
    var b := if |Concat(a.files[0].value)| + |msg| > maxSize then Shift(a) else a;
    ConcatAppend(b.files[0].value, msg);
  }

  /** Over every run no file grows past the limit unless it is a single chunk, the number
      of files stays, and each step drops nothing or the whole oldest file. */
  lemma {:induction false} FilesStayWithinLimit(a: Archive, maxSize: nat, msgs: seq<string>)
    requires Usable(a) && AllFit(a, maxSize)
    ensures var b := AppendAll(a, maxSize, msgs);
      && AllFit(b, maxSize) && |b.files| == |a.files|
      && forall m :: DropsWholeFiles(b, Append(b, maxSize, m))
  {
    if msgs != [] {
      var n := |msgs| - 1;
      FilesStayWithinLimit(a, maxSize, msgs[..n]);
      AppendKeepsLimit(AppendAll(a, maxSize, msgs[..n]), maxSize, msgs[n]);
    }
    var b := AppendAll(a, maxSize, msgs);
    forall m ensures DropsWholeFiles(b, Append(b, maxSize, m)) {
      AppendKeepsLimit(b, maxSize, m);
    }
  }

  // ----- files are filled before the next one is started -----

  /** A message goes to the end of file 0 if the file then is within the limit. Otherwise it is
      the first of a new file 0, and each file becomes the next older one. */
  lemma MessageGoesWhereItFits(a: Archive, maxSize: nat, msg: string)
    requires Usable(a)
    ensures var b := Append(a, maxSize, msg); var n := |a.files|; var longer := a.files[0].value + [msg];
      && |b.files| == n
      && (|Concat(longer)| <= maxSize ==>
            b.dropped == a.dropped && b.files[0] == Some(longer) && b.files[1..] == a.files[1..])
      && (|Concat(longer)| > maxSize ==>
            && b.dropped == a.dropped + Chunks(a.files[n - 1]) && b.files[0] == Some([msg])
            && forall i :: 1 <= i < n ==> b.files[i] == a.files[i - 1])
  {
    ConcatAppend(a.files[0].value, msg);
    if |Concat(a.files[0].value + [msg])| > maxSize {
      var shifted := Shift(a).files;
      assert shifted[0] == Some([]) && forall i :: 1 <= i < |a.files| ==> shifted[i] == a.files[i - 1];
      DropEmpty([msg]);
    }
  }

  /** The first chunk of the newer file would have made the older one too large. */
  ghost predicate Packed(older: Option<File>, newer: Option<File>, maxSize: nat) {
    older.Some? && newer.Some? && newer.value != [] && |Concat(older.value + [newer.value[0]])| > maxSize
  }

  /** What `r` rotations have made of the files of `a`. */
  ghost predicate PackedSince(a: Archive, b: Archive, maxSize: nat, r: nat) {
    && |a.files| == |b.files| && Usable(a)
    && (forall i :: r < i < |b.files| ==> b.files[i] == a.files[i - r])
    && (r < |b.files| ==> b.files[r].Some? && a.files[0].value <= b.files[r].value)
    && (forall i :: 0 <= i < r && i + 1 < |b.files| ==> Packed(b.files[i + 1], b.files[i], maxSize))
  }

  lemma StaysPacked(a: Archive, b: Archive, maxSize: nat, r: nat, msg: string)
    requires Usable(b) && PackedSince(a, b, maxSize, r) && |Concat(b.files[0].value + [msg])| <= maxSize
    requires r > 0 ==> b.files[0].value != []
    ensures PackedSince(a, Append(b, maxSize, msg), maxSize, r)
    ensures Append(b, maxSize, msg).files[0].value != []
  {
    var c := Append(b, maxSize, msg);
    MessageGoesWhereItFits(b, maxSize, msg);
    assert forall i :: 1 <= i < |c.files| ==> c.files[i] == c.files[1..][i - 1] == b.files[i];
    forall i | 0 <= i < r && i + 1 < |c.files| ensures Packed(c.files[i + 1], c.files[i], maxSize) {
      assert Packed(b.files[i + 1], b.files[i], maxSize) && c.files[i].value[0] == b.files[i].value[0];
    }
  }

  lemma RotatedPacked(a: Archive, b: Archive, maxSize: nat, r: nat, msg: string)
    requires Usable(b) && PackedSince(a, b, maxSize, r) && |Concat(b.files[0].value + [msg])| > maxSize
    ensures PackedSince(a, Append(b, maxSize, msg), maxSize, r + 1)
    ensures Append(b, maxSize, msg).files[0].value != []
  {
    var c := Append(b, maxSize, msg);
    MessageGoesWhereItFits(b, maxSize, msg);
    forall i | 0 <= i < r + 1 && i + 1 < |c.files| ensures Packed(c.files[i + 1], c.files[i], maxSize) {
      assert c.files[i + 1] == b.files[i];
      assert i > 0 ==> c.files[i] == b.files[i - 1] && Packed(b.files[i - 1 + 1], b.files[i - 1], maxSize);
    }
    assert r + 1 < |c.files| ==> c.files[r + 1] == b.files[r];
  }

  /** Over every run, with r rotations: the files older than file r are the initial ones, file r
      begins with the initial file 0, and each of the newer files was started only because
      its first message no longer fitted the file before it. */
  lemma {:induction false} RunPacks(a: Archive, maxSize: nat, msgs: seq<string>) returns (r: nat)
    requires Usable(a)
    ensures PackedSince(a, AppendAll(a, maxSize, msgs), maxSize, r)
    ensures msgs != [] ==> AppendAll(a, maxSize, msgs).files[0].value != []
    ensures r <= |msgs|
  {
    r := 0;
    if msgs != [] {
      var n := |msgs| - 1;
      r := RunPacks(a, maxSize, msgs[..n]);
      var b := AppendAll(a, maxSize, msgs[..n]);
      if |Concat(b.files[0].value + [msgs[n]])| <= maxSize {
        StaysPacked(a, b, maxSize, r, msgs[n]);
      } else {
        RotatedPacked(a, b, maxSize, r, msgs[n]);
        r := r + 1;
      }
    }
  }

  /** The archive of a freshly opened sink meets the precondition of the run results. */
  lemma FreshSinkFits(a: Archive, maxSize: nat)
    requires a.files != [] && a.files[0].Some?
    requires forall i :: 0 <= i < |a.files| && a.files[i].Some? ==> |a.files[i].value| == 1
    ensures Usable(a) && AllFit(a, maxSize)
  {
  }
}
