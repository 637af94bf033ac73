/** Which files the packer takes, and in which order, said without the queue that finds them. */
module PackerOrder {
  import opened PackerFiles

  /** A way down from a given entry: every further entry is in the directory before it, neither hidden
      nor a link. What is given on the command line may itself be a link. */
  ghost predicate WayDown(roots: seq<Entry>, way: seq<Entry>) {
    && way != [] && way[0] in roots
    && forall i :: 0 < i < |way| ==> IsBelow(way[i - 1], way[i])
  }

  ghost predicate IsBelow(d: Entry, e: Entry) {
    d.Dir? && e in d.entries && !e.hidden && !e.symlink
  }

  lemma {:induction false} ListedAre(es: seq<Entry>, e: Entry)
    ensures e in Listed(es) <==> e in es && !e.hidden && !e.symlink
  {
    if es != [] {
      ListedAre(es[1..], e);
      assert e in es <==> e == es[0] || e in es[1..];
    }
  }

  /** A file is met exactly when it is at the end of a way down. */
  lemma LeavesExactlyByWays(roots: seq<Entry>, f: Entry)
    ensures f in AllLeaves(roots) <==>
      f.File? && exists way: seq<Entry> :: WayDown(roots, way) && way[|way| - 1] == f
  {
    if f in AllLeaves(roots) {
      var way := WayTo(roots, f);
    } else if f.File? && exists way: seq<Entry> :: WayDown(roots, way) && way[|way| - 1] == f {
      var way: seq<Entry> :| WayDown(roots, way) && way[|way| - 1] == f;
      WayIsMet(roots, way);
    }
  }

  /** The queue finds exactly the visible files at the end of a way down. */
  lemma FoundExactlyByWays(roots: seq<Entry>, f: Entry)
    ensures f in QueueOrder(roots) <==>
      f.File? && !f.hidden && exists way: seq<Entry> :: WayDown(roots, way) && way[|way| - 1] == f
  {
    QueueOrderIsForest(roots);
    assert f in QueueOrder(roots) <==> f in multiset(Visible(AllLeaves(roots)));
    VisibleAre(AllLeaves(roots), f);
    LeavesExactlyByWays(roots, f);
    hide QueueOrder, AllLeaves, Visible, WayDown;
  }

  /** The packer gives up exactly when such a file cannot be read, be it hidden or not. */
  lemma GivesUpExactlyAtUnreadable(roots: seq<Entry>)
    ensures AllReadable(roots) <==>
      forall way: seq<Entry> :: WayDown(roots, way) && way[|way| - 1].File? ==> way[|way| - 1].readable
  {
    hide AllLeaves;
    forall f ensures f in AllLeaves(roots) <==>
        f.File? && exists way: seq<Entry> :: WayDown(roots, way) && way[|way| - 1] == f {
      LeavesExactlyByWays(roots, f);
    }
    hide WayDown;
  }

  lemma {:induction false} VisibleAre(es: seq<Entry>, e: Entry)
    ensures e in Visible(es) <==> e in es && !e.hidden
  {
    if es != [] {
      VisibleAre(es[1..], e);
      assert e in es <==> e == es[0] || e in es[1..];
    }
  }

  lemma DirIsItsListing(roots: seq<Entry>)
    requires roots != [] && roots[0].Dir?
    ensures TotalSize(roots[1..] + Listed(roots[0].entries)) < TotalSize(roots)
    ensures forall f :: f in AllLeaves(roots) <==> f in AllLeaves(roots[1..] + Listed(roots[0].entries))
  {
    TotalSizeConcat(roots[1..], Listed(roots[0].entries));
    ListedSize(roots[0].entries);
    assert Size(roots[0]) == 1 + TotalSize(roots[0].entries);
    AllLeavesConcat(roots[1..], Listed(roots[0].entries));
    LeavesOfListed(roots[0].entries);
  }

  lemma {:induction false} WayTo(roots: seq<Entry>, f: Entry) returns (way: seq<Entry>)
    requires f in AllLeaves(roots)
    ensures f.File? && WayDown(roots, way) && way[|way| - 1] == f
    decreases TotalSize(roots)
  {
    var e, rest := roots[0], roots[1..];
    assert forall r :: r in rest ==> r in roots;
    if e.File? {
      if f == e {
        way := [e];
      } else {
        way := WayTo(rest, f);
      }
    } else {
      DirIsItsListing(roots);
      way := WayTo(rest + Listed(e.entries), f);
      if way[0] !in rest {
        ListedAre(e.entries, way[0]);
        way := [e] + way;
      }
    }
  }

  lemma {:induction false} WayIsMet(roots: seq<Entry>, way: seq<Entry>)
    requires WayDown(roots, way) && way[|way| - 1].File?
    ensures way[|way| - 1] in AllLeaves(roots)
    decreases TotalSize(roots)
  {
    var e, rest := roots[0], roots[1..];
    if e.File? {
      if way[0] == e {
        assert |way| > 1 ==> IsBelow(way[0], way[1]);
      } else {
        WayIsMet(rest, way);
      }
    } else {
      DirIsItsListing(roots);
      if way[0] == e {
        assert IsBelow(way[0], way[1]);
        ListedAre(e.entries, way[1]);
        assert forall i :: 0 < i < |way[1..]| ==> way[1..][i] == way[i + 1] && IsBelow(way[i], way[i + 1]);
        WayIsMet(rest + Listed(e.entries), way[1..]);
      } else {
        WayIsMet(rest + Listed(e.entries), way);
      }
    }
  }

  // ---------- the order ----------

  /** All the listings of the directories among some entries, one after the other. */
  function NextLevel(es: seq<Entry>): seq<Entry> {
    if es == [] then [] else (if es[0].Dir? then Listed(es[0].entries) else []) + NextLevel(es[1..])
  }

  function FilesOf(es: seq<Entry>): seq<Entry> {
    if es == [] then [] else (if es[0].File? && !es[0].hidden then [es[0]] else []) + FilesOf(es[1..])
  }

  /** The order is level after level: what was given, then what the given directories hold, and so on. */
  lemma OrderIsLevelAfterLevel(roots: seq<Entry>)
    ensures QueueOrder(roots) == FilesOf(roots) + QueueOrder(NextLevel(roots))
  {
    LevelThenRest(roots, []);
    assert roots + [] == roots && [] + NextLevel(roots) == NextLevel(roots);
  }

  lemma TakenFirst(e: Entry, rest: seq<Entry>)
    ensures QueueOrder([e] + rest) == FilesOf([e]) + QueueOrder(rest + NextLevel([e]))
  {
    assert ([e] + rest)[1..] == rest && rest + [] == rest;
    assert e.Dir? ==> NextLevel([e]) == Listed(e.entries);
    hide Listed;
  }

  lemma HeadFirst(e: Entry, rest: seq<Entry>)
    ensures NextLevel([e] + rest) == NextLevel([e]) + NextLevel(rest)
    ensures FilesOf([e] + rest) == FilesOf([e]) + FilesOf(rest)
  {
    assert ([e] + rest)[1..] == rest;
    hide Listed;
  }

  lemma {:induction false} LevelThenRest(level: seq<Entry>, found: seq<Entry>)
    ensures QueueOrder(level + found) == FilesOf(level) + QueueOrder(found + NextLevel(level))
  {
    if level == [] {
      assert level + found == found && found + [] == found;
    } else {
      hide QueueOrder, NextLevel, FilesOf;
      var e, rest := level[0], level[1..];
      HeadFirst(e, rest);
      assert level == [e] + rest;
      calc {
        QueueOrder(level + found);
        { assert level + found == [e] + (rest + found); }
        QueueOrder([e] + (rest + found));
        { TakenFirst(e, rest + found); }
        FilesOf([e]) + QueueOrder(rest + found + NextLevel([e]));
        { assert rest + found + NextLevel([e]) == rest + (found + NextLevel([e])); }
        FilesOf([e]) + QueueOrder(rest + (found + NextLevel([e])));
        { LevelThenRest(rest, found + NextLevel([e])); }
        FilesOf([e]) + (FilesOf(rest) + QueueOrder(found + NextLevel([e]) + NextLevel(rest)));
        { assert found + NextLevel([e]) + NextLevel(rest) == found + NextLevel(level); }
        FilesOf([e]) + (FilesOf(rest) + QueueOrder(found + NextLevel(level)));
      }
    }
  }
}
