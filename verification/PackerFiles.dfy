/** How the packer turns the files and directories it is given into the list of files to pack. */
module PackerFiles {

  /** What one path names. A directory holds all its entries, also those a listing leaves out. */
  datatype Entry =
    | File(path: string, hidden: bool, symlink: bool, readable: bool)
    | Dir(path: string, hidden: bool, symlink: bool, entries: seq<Entry>)

  /** `QDir::Files | QDir::Dirs | QDir::NoSymLinks`: without `QDir::Hidden`, hidden entries are left out. */
  predicate IsListed(e: Entry) { !e.hidden && !e.symlink }

  function Listed(entries: seq<Entry>): seq<Entry> {
    if entries == [] then []
    else (if IsListed(entries[0]) then [entries[0]] else []) + Listed(entries[1..])
  }

  /** The number of nodes below and at an entry. */
  function Size(e: Entry): (n: nat)
    ensures n >= 1
    decreases e
  {
    match e
    case File(_, _, _, _) => 1
    case Dir(_, _, _, entries) => 1 + TotalSize(entries)
  }

  function TotalSize(es: seq<Entry>): nat
    decreases es
  {
    if es == [] then 0 else Size(es[0]) + TotalSize(es[1..])
  }

  /** The files an entry stands for, in depth-first order: the entry itself, or what its listing holds. */
  function Leaves(e: Entry): seq<Entry>
    decreases e
  {
    match e
    case File(_, _, _, _) => [e]
    case Dir(_, _, _, entries) => ListedLeaves(entries)
  }

  function ListedLeaves(es: seq<Entry>): seq<Entry>
    decreases es
  {
    if es == [] then []
    else (if IsListed(es[0]) then Leaves(es[0]) else []) + ListedLeaves(es[1..])
  }

  function AllLeaves(es: seq<Entry>): seq<Entry> {
    if es == [] then [] else Leaves(es[0]) + AllLeaves(es[1..])
  }

  function Visible(es: seq<Entry>): seq<Entry> {
    if es == [] then [] else (if es[0].hidden then [] else [es[0]]) + Visible(es[1..])
  }

  ghost predicate AllReadable(es: seq<Entry>) {
    forall e :: e in AllLeaves(es) && e.File? ==> e.readable
  }

  /** The order in which a queue of entries is taken apart. */
  function QueueOrder(es: seq<Entry>): seq<Entry>
    decreases TotalSize(es)
  {
    if es == [] then []
    else if es[0].File? then (if es[0].hidden then [] else [es[0]]) + QueueOrder(es[1..])
    else
      TotalSizeConcat(es[1..], Listed(es[0].entries));
      ListedSize(es[0].entries);
      assert Size(es[0]) == 1 + TotalSize(es[0].entries);
      QueueOrder(es[1..] + Listed(es[0].entries))
  }

  lemma TotalSizeConcat(x: seq<Entry>, y: seq<Entry>)
    ensures TotalSize(x + y) == TotalSize(x) + TotalSize(y)
  {
    if x == [] {
      assert x + y == y;
    } else {
      assert (x + y)[1..] == x[1..] + y;
      TotalSizeConcat(x[1..], y);
    }
  }

  lemma ListedSize(es: seq<Entry>)
    ensures TotalSize(Listed(es)) <= TotalSize(es)
  {
    if es != [] {
      ListedSize(es[1..]);
      TotalSizeConcat(if IsListed(es[0]) then [es[0]] else [], Listed(es[1..]));
    }
  }

  lemma AllLeavesConcat(x: seq<Entry>, y: seq<Entry>)
    ensures AllLeaves(x + y) == AllLeaves(x) + AllLeaves(y)
  {
    if x == [] {
      assert x + y == y;
    } else {
      assert (x + y)[1..] == x[1..] + y;
      AllLeavesConcat(x[1..], y);
    }
  }

  lemma LeavesOfListed(es: seq<Entry>)
    ensures AllLeaves(Listed(es)) == ListedLeaves(es)
  {
    if es != [] {
      LeavesOfListed(es[1..]);
      AllLeavesConcat(if IsListed(es[0]) then [es[0]] else [], Listed(es[1..]));
    }
  }

  lemma VisibleConcat(x: seq<Entry>, y: seq<Entry>)
    ensures Visible(x + y) == Visible(x) + Visible(y)
  {
    if x == [] {
      assert x + y == y;
    } else {
      assert (x + y)[1..] == x[1..] + y;
      VisibleConcat(x[1..], y);
    }
  }

  /** The queue order loses and adds nothing: it is a permutation of the visible files of the forest. */
  lemma {:induction false} QueueOrderIsForest(es: seq<Entry>)
    ensures multiset(QueueOrder(es)) == multiset(Visible(AllLeaves(es)))
    decreases TotalSize(es)
  {
    if es != [] {
      var head, rest := es[0], es[1..];
      VisibleConcat(Leaves(head), AllLeaves(rest));
      if head.File? {
        QueueOrderIsForest(rest);
        assert Visible([head]) == if head.hidden then [] else [head];
      } else {
        var below := Listed(head.entries);
        TotalSizeConcat(rest, below);
        ListedSize(head.entries);
        assert Size(head) == 1 + TotalSize(head.entries);
        QueueOrderIsForest(rest + below);
        LeavesOfListed(head.entries);
        AllLeavesConcat(rest, below);
        VisibleConcat(AllLeaves(rest), AllLeaves(below));
      }
    }
  }

  ghost predicate IsKept(e: Entry) { e.File? && e.readable && !e.hidden }

  lemma {:induction false} QueueOrderAfter(kept: seq<Entry>, rest: seq<Entry>)
    requires forall e :: e in kept ==> IsKept(e)
    ensures QueueOrder(kept + rest) == kept + QueueOrder(rest)
  {
    if kept == [] {
      assert kept + rest == rest;
    } else {
      assert (kept + rest)[1..] == kept[1..] + rest;
      assert kept == [kept[0]] + kept[1..] && IsKept(kept[0]);
      assert (kept + rest)[0] == kept[0];
      QueueOrderAfter(kept[1..], rest);
    }
  }

  /** What replaces an entry that is taken out: a directory's listing goes to the end. */
  function Below(e: Entry): seq<Entry> {
    if e.Dir? then Listed(e.entries) else []
  }

  function Without(files: seq<Entry>, i: nat): seq<Entry>
    requires i < |files|
  {
    files[..i] + files[i + 1..] + Below(files[i])
  }

  /** The first entry of a list is taken out and its listing appended. */
  lemma FirstOut(e: Entry, rest: seq<Entry>)
    requires e.Dir? || (e.readable && e.hidden)
    ensures QueueOrder([e] + rest) == QueueOrder(rest + Below(e))
  {
    assert ([e] + rest)[1..] == rest && rest + [] == rest;
    hide Listed, TotalSize, Size;
  }

  lemma LeavesOfFirst(e: Entry, rest: seq<Entry>)
    ensures AllLeaves([e] + rest) == Leaves(e) + AllLeaves(rest)
  {
    assert ([e] + rest)[1..] == rest;
    hide Leaves;
  }

  /** The same leaves may be met in another order, and a hidden file that can be read is left out. */
  lemma ReadableStep(kept: seq<Entry>, e: Entry, rest: seq<Entry>)
    requires e.Dir? || e.readable
    ensures AllReadable(kept + ([e] + rest)) <==> AllReadable(kept + (rest + Below(e)))
  {
    AllLeavesConcat(kept, [e] + rest);
    LeavesOfFirst(e, rest);
    AllLeavesConcat(kept, rest + Below(e));
    AllLeavesConcat(rest, Below(e));
    if e.Dir? {
      LeavesOfListed(e.entries);
    }
    hide AllLeaves, ListedLeaves, Listed;
  }

  lemma SizeStep(kept: seq<Entry>, e: Entry, rest: seq<Entry>)
    ensures TotalSize(kept + (rest + Below(e))) < TotalSize(kept + ([e] + rest))
  {
    TotalSizeConcat(kept, rest + Below(e));
    TotalSizeConcat(kept, [e] + rest);
    TotalSizeConcat(rest, Below(e));
    assert ([e] + rest)[1..] == rest;
    if e.Dir? {
      ListedSize(e.entries);
    }
  }

  lemma Split(files: seq<Entry>, i: nat)
    requires i < |files|
    ensures files == files[..i] + ([files[i]] + files[i + 1..])
    ensures Without(files, i) == files[..i] + (files[i + 1..] + Below(files[i]))
  {
    hide Below;
  }

  /** Taking out entry i of the list, and appending its listing, keeps the queue order, the
      readability of the forest, and makes the list smaller. */
  lemma TakeOut(files: seq<Entry>, i: nat)
    requires i < |files| && (forall j :: 0 <= j < i ==> IsKept(files[j]))
    requires files[i].Dir? || (files[i].readable && files[i].hidden)
    ensures QueueOrder(Without(files, i)) == QueueOrder(files)
    ensures AllReadable(Without(files, i)) <==> AllReadable(files)
    ensures TotalSize(Without(files, i)) < TotalSize(files)
  {
    hide QueueOrder, AllReadable, TotalSize, Without, Below;
    var kept, e, rest := files[..i], files[i], files[i + 1..];
    Split(files, i);
    FirstOut(e, rest);
    QueueOrderAfter(kept, [e] + rest);
    QueueOrderAfter(kept, rest + Below(e));
    ReadableStep(kept, e, rest);
    SizeStep(kept, e, rest);
  }

  lemma KeptList(files: seq<Entry>)
    requires forall e :: e in files ==> IsKept(e)
    ensures QueueOrder(files) == files && AllReadable(files)
  {
    QueueOrderAfter(files, []);
    assert files + [] == files;
    AllLeavesOfFiles(files);
  }

  lemma AllLeavesOfFiles(files: seq<Entry>)
    requires forall e :: e in files ==> e.File?
    ensures AllLeaves(files) == files
  {
    if files != [] {
      AllLeavesOfFiles(files[1..]);
    }
  }

  lemma UnreadableLeaf(files: seq<Entry>, i: nat)
    requires i < |files| && files[i].File? && !files[i].readable
    ensures !AllReadable(files)
  {
    assert files == files[..i] + ([files[i]] + files[i + 1..]);
    AllLeavesConcat(files[..i], [files[i]] + files[i + 1..]);
    assert files[i] in AllLeaves(files);
  }

  /** The loop that takes the list apart in place until a whole pass meets only files to keep. It
      fails exactly when the forest has a file that cannot be read. */
  method Flatten(roots: seq<Entry>) returns (ok: bool, files: seq<Entry>)
    ensures ok <==> AllReadable(roots)
    ensures ok ==> files == QueueOrder(roots)
    ensures ok ==> multiset(files) == multiset(Visible(AllLeaves(roots)))
    ensures ok ==> forall e :: e in files ==> IsKept(e)
  {
    files := roots;
    var hasDirs := true;
    while hasDirs
      invariant QueueOrder(files) == QueueOrder(roots)
      invariant AllReadable(files) <==> AllReadable(roots)
      invariant !hasDirs ==> forall e :: e in files ==> IsKept(e)
      decreases TotalSize(files), if hasDirs then 1 else 0
    {
      hasDirs := false;
      ghost var before := files;
      var i := 0;
      while i < |files|
        invariant 0 <= i <= |files| && files == before && !hasDirs
        invariant forall j :: 0 <= j < i ==> IsKept(files[j])
      {
        var info := files[i];
        if info.Dir? {
          TakeOut(files, i);
          hasDirs := true;
          files := files[..i] + files[i + 1..];
          files := files + Listed(info.entries);
          break;
        } else if !info.readable {
          UnreadableLeaf(files, i);
          return false, files;
        } else if info.hidden {
          TakeOut(files, i);
          hasDirs := true;
          files := files[..i] + files[i + 1..];
          assert files + [] == files;
          break;
        }
        i := i + 1;
      }
    }
    KeptList(files);
    QueueOrderIsForest(roots);
    ok := true;
  }
}
