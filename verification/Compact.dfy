/** Pruning the store: roots of old schema versions, unversioned data, and empty directories. */
module Compact {
  import opened Codec
  import opened Models

  // ---------- schema versions ----------

  const ROOT_PREFIX := "/hm/v"
  const LOCKS_PREFIX := "/hm/locks"

  predicate AllDigits(s: string) { s != "" && forall c :: c in s ==> IsDigit(c) }

  // The digits of a key that is a version root.
  function VersionDigits(key: string): Option<string> {
    if ROOT_PREFIX <= key && AllDigits(key[|ROOT_PREFIX|..]) then Some(key[|ROOT_PREFIX|..]) else None
  }

  // What the pass over the top-level keys spares: locks, and version roots that are current or newer.
  predicate IsSpared(key: string, schemaVersion: int) {
    || LOCKS_PREFIX <= key
    || (VersionDigits(key).Some? && Atoi(VersionDigits(key).value).Some? &&
        Atoi(VersionDigits(key).value).value >= schemaVersion)
  }

  method OldAndUnversionedKeys(children: seq<string>, schemaVersion: int) returns (keysToDelete: seq<string>)
    ensures forall key :: key in keysToDelete <==> key in children && !IsSpared(key, schemaVersion)
    ensures forall key :: key in keysToDelete ==> !("/hm/locks" <= key)
  {
    hide Atoi;
    keysToDelete := [];
    for i := 0 to |children|
      invariant forall key :: key in keysToDelete <==> key in children[..i] && !IsSpared(key, schemaVersion)
    {
      var key := children[i];
      assert children[..i + 1] == children[..i] + [key];
      if !(LOCKS_PREFIX <= key) {
        var digits := VersionDigits(key);
        if digits.Some? {
          var version := Atoi(digits.value);
          if version.None? || version.value < schemaVersion {
            keysToDelete := keysToDelete + [key];
          }
        } else {
          keysToDelete := keysToDelete + [key];
        }
      }
    }
    assert children[..|children|] == children;
  }

  /** Spared is what begins with "/hm/locks", and what consists of "/hm/v" and the digits of a number that is not
      below the version. */
  lemma SparedAre(key: string, schemaVersion: int)
    ensures IsSpared(key, schemaVersion) <==>
            || "/hm/locks" <= key
            || (&& |key| > 5 && key[..5] == "/hm/v"
                && (forall i :: 5 <= i < |key| ==> '0' <= key[i] <= '9')
                && exists n: int :: Atoi(key[5..]) == Some(n) && n >= schemaVersion)
  {
    hide Atoi;
    assert ROOT_PREFIX <= key <==> |key| >= 5 && key[..5] == "/hm/v";
    if |key| > 5 {
      DigitsFrom(key, 5);
    }
  }

  lemma DigitsFrom(key: string, n: nat)
    requires n < |key|
    ensures AllDigits(key[n..]) <==> forall i :: n <= i < |key| ==> '0' <= key[i] <= '9'
  {
    var s := key[n..];
    if forall i :: n <= i < |key| ==> '0' <= key[i] <= '9' {
      forall c | c in s ensures IsDigit(c) {
        var j :| 0 <= j < |s| && s[j] == c;
        assert key[n + j] == c;
      }
    }
    if AllDigits(s) {
      forall i | n <= i < |key| ensures '0' <= key[i] <= '9' {
        assert s[i - n] in s;
      }
    }
  }

  /** The current root survives its own compaction exactly when the schema version is not negative:
      printed and parsed back it is not older than itself. */
  lemma CurrentRootIsSpared(version: int)
    requires MIN_INT <= version <= MAX_INT
    ensures IsSpared(SchemaRoot(version), version) <==> 0 <= version
  {
    var key := SchemaRoot(version);
    assert key[..5] == ROOT_PREFIX && key[5..] == Itoa(version);
    assert key[4] == 'v' && LOCKS_PREFIX[4] == 'l';
    AtoiOfItoa(version);
    if version < 0 {
      assert Itoa(version)[0] == '-' && Itoa(version)[0] in Itoa(version);
    }
  }

  /** A newer root survives, an older one does not. */
  lemma OlderRootsGo(version: int, schemaVersion: int)
    requires 0 <= version <= MAX_INT
    ensures IsSpared(SchemaRoot(version), schemaVersion) <==> version >= schemaVersion
  {
    var key := SchemaRoot(version);
    assert key[..5] == ROOT_PREFIX && key[5..] == Itoa(version);
    assert key[4] == 'v' && LOCKS_PREFIX[4] == 'l';
    AtoiOfItoa(version);
  }

  // ---------- empty directories ----------

  datatype Tree = Node(key: string, dir: bool, children: seq<Tree>)

  // No file anywhere at or below the node.
  predicate IsHollow(t: Tree) { t.dir && forall c :: c in t.children ==> IsHollow(c) }

  predicate AllHollow(cs: seq<Tree>) { forall c :: c in cs ==> IsHollow(c) }

  // The keys deleted, in order.
  function Deleted(t: Tree): seq<string>
    decreases t
  {
    if !t.dir then [] else DeletedIn(t.children) + (if IsHollow(t) then [t.key] else [])
  }

  function DeletedIn(cs: seq<Tree>): seq<string>
    decreases cs
  {
    if cs == [] then [] else DeletedIn(cs[..|cs| - 1]) + Deleted(cs[|cs| - 1])
  }

  // What is left of a node, if anything.
  function Pruned(t: Tree): Option<Tree>
    decreases t
  {
    if !t.dir then Some(t)
    else if IsHollow(t) then None
    else Some(t.(children := PrunedAll(t.children)))
  }

  function PrunedAll(cs: seq<Tree>): seq<Tree>
    decreases cs
  {
    if cs == [] then []
    else
      var rest := PrunedAll(cs[..|cs| - 1]);
      match Pruned(cs[|cs| - 1])
      case None => rest
      case Some(c) => rest + [c]
  }

  function Files(t: Tree): seq<string>
    decreases t
  {
    if !t.dir then [t.key] else FilesIn(t.children)
  }

  function FilesIn(cs: seq<Tree>): seq<string>
    decreases cs
  {
    if cs == [] then [] else FilesIn(cs[..|cs| - 1]) + Files(cs[|cs| - 1])
  }

  class Compactor {
    var deletions: seq<string>

    constructor ()
      ensures deletions == []
    {
      deletions := [];
    }

    /** Deletes the hollow directories at and below a node and says whether the node was one. */
    method DeleteEmptyDirectoriesUnder(node: Tree) returns (deleted: bool)
      modifies this
      ensures deleted == IsHollow(node)
      ensures deletions == old(deletions) + Deleted(node)
      decreases node
    {
      if node.dir {
        if |node.children| == 0 {
          deletions := deletions + [node.key];
          return true;
        } else {
          var deletedAll := true;
          for i := 0 to |node.children|
            invariant deletions == old(deletions) + DeletedIn(node.children[..i])
            invariant deletedAll == AllHollow(node.children[..i])
          {
            hide AllHollow, DeletedIn, Deleted, IsHollow;
            NextChild(node.children, i);
            var childDeleted := DeleteEmptyDirectoriesUnder(node.children[i]);
            deletedAll := childDeleted && deletedAll;
          }
          assert node.children[..|node.children|] == node.children;
          if deletedAll {
            deletions := deletions + [node.key];
            return true;
          }
        }
      }
      return false;
    }
  }

  lemma NextChild(cs: seq<Tree>, i: nat)
    requires i < |cs|
    ensures DeletedIn(cs[..i + 1]) == DeletedIn(cs[..i]) + Deleted(cs[i])
    ensures AllHollow(cs[..i + 1]) <==> AllHollow(cs[..i]) && IsHollow(cs[i])
  {
    assert cs[..i + 1][..i] == cs[..i];
    assert cs[..i + 1] == cs[..i] + [cs[i]];
  }

  // ---------- what is deleted ----------

  ghost function Subtrees(t: Tree): set<Tree>
    decreases t
  {
    {t} + set c, s | c in t.children && s in Subtrees(c) :: s
  }

  // Files have nothing below them.
  ghost predicate WellFormed(t: Tree) {
    forall s :: s in Subtrees(t) && !s.dir ==> s.children == []
  }

  lemma ChildIsWellFormed(t: Tree, c: Tree)
    requires WellFormed(t) && c in t.children
    ensures WellFormed(c)
  {
    forall s | s in Subtrees(c) ensures s in Subtrees(t) {
    }
  }

  lemma HollowBelow(t: Tree, key: string)
    ensures (exists s :: s in Subtrees(t) && IsHollow(s) && s.key == key) <==>
            (IsHollow(t) && t.key == key) ||
            (exists c, s :: c in t.children && s in Subtrees(c) && IsHollow(s) && s.key == key)
  {
    hide IsHollow;
    assert forall s :: s in Subtrees(t) <==> s == t || exists c :: c in t.children && s in Subtrees(c);
    hide Subtrees;
  }

  /** The keys deleted are those of the hollow directories, no others. */
  lemma {:induction false} DeletedAreHollow(t: Tree, key: string)
    requires WellFormed(t)
    ensures key in Deleted(t) <==> exists s :: s in Subtrees(t) && IsHollow(s) && s.key == key
    decreases t
  {
    if t.dir {
      forall c | c in t.children ensures WellFormed(c) {
        ChildIsWellFormed(t, c);
      }
      hide WellFormed;
      DeletedInAreHollow(t.children, key);
      HollowBelow(t, key);
      hide Subtrees;
    } else {
      assert t in Subtrees(t);
      assert Subtrees(t) == {t};
    }
  }

  lemma {:induction false} DeletedInAreHollow(cs: seq<Tree>, key: string)
    requires forall c :: c in cs ==> WellFormed(c)
    ensures key in DeletedIn(cs) <==> exists c, s :: c in cs && s in Subtrees(c) && IsHollow(s) && s.key == key
    decreases cs
  {
    if cs != [] {
      var init, last := cs[..|cs| - 1], cs[|cs| - 1];
      assert cs == init + [last];
      DeletedInAreHollow(init, key);
      DeletedAreHollow(last, key);
    }
  }

  /** Every file is kept, in place, and a directory goes exactly when it has none. */
  lemma {:induction false} FilesAreKept(t: Tree)
    ensures IsHollow(t) <==> t.dir && Files(t) == []
    ensures Pruned(t).None? <==> IsHollow(t)
    ensures Pruned(t).Some? ==> Files(Pruned(t).value) == Files(t)
    decreases t
  {
    if t.dir {
      FilesInAreKept(t.children);
    }
  }

  lemma {:induction false} FilesInAreKept(cs: seq<Tree>)
    ensures FilesIn(cs) == [] <==> forall c :: c in cs ==> IsHollow(c)
    ensures FilesIn(PrunedAll(cs)) == FilesIn(cs)
    decreases cs
  {
    if cs != [] {
      var init, last := cs[..|cs| - 1], cs[|cs| - 1];
      assert cs == init + [last];
      FilesInAreKept(init);
      FilesAreKept(last);
      if Pruned(last).Some? {
        assert (PrunedAll(init) + [Pruned(last).value])[..|PrunedAll(init)|] == PrunedAll(init);
      }
    }
  }

  /** Pruning again finds nothing to delete. */
  lemma {:induction false} PruningIsIdempotent(t: Tree)
    ensures Pruned(t).Some? ==> Deleted(Pruned(t).value) == [] && Pruned(Pruned(t).value) == Pruned(t)
    decreases t
  {
    if t.dir && !IsHollow(t) {
      PrunedAllIsIdempotent(t.children);
      FilesAreKept(t);
      FilesAreKept(Pruned(t).value);
    }
  }

  lemma {:induction false} PrunedAllIsIdempotent(cs: seq<Tree>)
    ensures DeletedIn(PrunedAll(cs)) == [] && PrunedAll(PrunedAll(cs)) == PrunedAll(cs)
    decreases cs
  {
    if cs != [] {
      var init, last := cs[..|cs| - 1], cs[|cs| - 1];
      PrunedAllIsIdempotent(init);
      PruningIsIdempotent(last);
      if Pruned(last).Some? {
        assert (PrunedAll(init) + [Pruned(last).value])[..|PrunedAll(init)|] == PrunedAll(init);
      }
    }
  }

  // ---------- the order of deletions ----------

  // The nodes at and below a sequence of trees.
  ghost function SubtreesIn(cs: seq<Tree>): set<Tree> {
    set c, s | c in cs && s in Subtrees(c) :: s
  }

  ghost predicate DistinctKeys(nodes: set<Tree>) {
    forall s, s' :: s in nodes && s' in nodes && s.key == s'.key ==> s == s'
  }

  // Wherever a node's key stands in the log, the keys of its children stand before it.
  ghost predicate ChildrenFirst(nodes: set<Tree>, log: seq<string>) {
    forall s, c, i :: s in nodes && c in s.children && 0 <= i < |log| && log[i] == s.key ==> c.key in log[..i]
  }

  lemma HollowChildrenAreDeleted(cs: seq<Tree>, c: Tree)
    requires c in cs && IsHollow(c)
    ensures c.key in DeletedIn(cs)
    decreases cs
  {
    var init, last := cs[..|cs| - 1], cs[|cs| - 1];
    assert cs == init + [last];
    if c in init {
      HollowChildrenAreDeleted(init, c);
    } else {
      assert Deleted(c)[|Deleted(c)| - 1] == c.key;
    }
  }

  /** Directories are deleted from the bottom up: when a directory's turn comes all its children have
      gone, so it is empty. */
  lemma {:induction false} DeletedBottomUp(t: Tree)
    requires WellFormed(t) && DistinctKeys(Subtrees(t))
    ensures ChildrenFirst(Subtrees(t), Deleted(t))
    decreases t
  {
    if t.dir {
      forall c | c in t.children ensures WellFormed(c) {
        ChildIsWellFormed(t, c);
      }
      assert SubtreesIn(t.children) <= Subtrees(t);
      DeletedBottomUpIn(t.children);
      var below, log := DeletedIn(t.children), Deleted(t);
      forall s, c, i | s in Subtrees(t) && c in s.children && 0 <= i < |log| && log[i] == s.key
        ensures c.key in log[..i]
      {
        if i < |below| {
          DeletedAmong(t.children, s, i);
          assert log[..i] == below[..i];
        } else {
          assert t in Subtrees(t) && s == t;
          HollowChildrenAreDeleted(t.children, c);
          assert log[..i] == below;
        }
      }
    }
  }

  // The node whose key was deleted is one of those the log is about.
  lemma DeletedAmong(cs: seq<Tree>, s: Tree, i: nat)
    requires forall c :: c in cs ==> WellFormed(c)
    requires i < |DeletedIn(cs)| && DeletedIn(cs)[i] == s.key
    requires DistinctKeys(SubtreesIn(cs) + {s})
    ensures s in SubtreesIn(cs)
  {
    DeletedInAreHollow(cs, s.key);
    var c, s' :| c in cs && s' in Subtrees(c) && IsHollow(s') && s'.key == s.key;
    assert s' in SubtreesIn(cs);
  }

  lemma {:induction false} DeletedBottomUpIn(cs: seq<Tree>)
    requires forall c :: c in cs ==> WellFormed(c)
    requires DistinctKeys(SubtreesIn(cs))
    ensures ChildrenFirst(SubtreesIn(cs), DeletedIn(cs))
    decreases cs
  {
    if cs != [] {
      var init, last := cs[..|cs| - 1], cs[|cs| - 1];
      assert cs == init + [last];
      assert SubtreesIn(cs) == SubtreesIn(init) + Subtrees(last);
      DeletedBottomUpIn(init);
      DeletedBottomUp(last);
      forall k | k in DeletedIn(init) ensures k in KeysOf(SubtreesIn(init)) {
        DeletedInAreHollow(init, k);
        var c, s :| c in init && s in Subtrees(c) && IsHollow(s) && s.key == k;
        assert s in SubtreesIn(init);
      }
      forall k | k in Deleted(last) ensures k in KeysOf(Subtrees(last)) {
        DeletedAreHollow(last, k);
      }
      JoinLogs(SubtreesIn(init), DeletedIn(init), Subtrees(last), Deleted(last));
    }
  }

  ghost function KeysOf(nodes: set<Tree>): set<string> { set s | s in nodes :: s.key }

  // Two logs, each about its own nodes, one after the other.
  lemma JoinLogs(a: set<Tree>, logA: seq<string>, b: set<Tree>, logB: seq<string>)
    requires ChildrenFirst(a, logA) && ChildrenFirst(b, logB) && DistinctKeys(a + b)
    requires forall k :: k in logA ==> k in KeysOf(a)
    requires forall k :: k in logB ==> k in KeysOf(b)
    ensures ChildrenFirst(a + b, logA + logB)
  {
    var log := logA + logB;
    forall s, c, i | s in a + b && c in s.children && 0 <= i < |log| && log[i] == s.key ensures c.key in log[..i] {
      if i < |logA| {
        assert logA[i] in logA;
        var s' :| s' in a && s'.key == s.key;
        assert s == s';
        assert log[..i] == logA[..i];
      } else {
        assert logB[i - |logA|] in logB;
        var s' :| s' in b && s'.key == s.key;
        assert s == s';
        assert log[..i] == logA + logB[..i - |logA|];
      }
    }
  }

  // ---------- what the deletions leave ----------

  // A tree without the nodes that have the given keys.
  function Remaining(t: Tree, keys: set<string>): Option<Tree>
    decreases t
  {
    if t.key in keys then None else Some(t.(children := RemainingAll(t.children, keys)))
  }

  function RemainingAll(cs: seq<Tree>, keys: set<string>): seq<Tree>
    decreases cs
  {
    if cs == [] then []
    else
      var rest := RemainingAll(cs[..|cs| - 1], keys);
      match Remaining(cs[|cs| - 1], keys)
      case None => rest
      case Some(c) => rest + [c]
  }

  /** The tree with the logged keys deleted is the pruned tree, so what is proved of that tree is true of
      the store after the pass. */
  lemma DeletionsPrune(t: Tree)
    requires WellFormed(t) && DistinctKeys(Subtrees(t))
    ensures Remaining(t, set k | k in Deleted(t)) == Pruned(t)
  {
    var keys := set k | k in Deleted(t);
    forall s | s in Subtrees(t) ensures s.key in keys <==> IsHollow(s) {
      DeletedAreHollow(t, s.key);
    }
    RemainingIsPruned(t, keys);
  }

  /** Afterwards nothing is left exactly if there was no file, else every file is, and another pass would
      find nothing to delete. */
  lemma AfterThePass(t: Tree)
    requires WellFormed(t) && DistinctKeys(Subtrees(t))
    ensures var left := Remaining(t, set k | k in Deleted(t));
            && (left.None? <==> t.dir && Files(t) == [])
            && (left.Some? ==> Files(left.value) == Files(t) && Deleted(left.value) == [])
  {
    DeletionsPrune(t);
    FilesAreKept(t);
    PruningIsIdempotent(t);
  }

  lemma {:induction false} RemainingIsPruned(t: Tree, keys: set<string>)
    requires WellFormed(t) && forall s :: s in Subtrees(t) ==> (s.key in keys <==> IsHollow(s))
    ensures Remaining(t, keys) == Pruned(t)
    decreases t
  {
    assert t in Subtrees(t);
    forall c, s | c in t.children && s in Subtrees(c) ensures s in Subtrees(t) {
    }
    forall c | c in t.children ensures WellFormed(c) {
      ChildIsWellFormed(t, c);
    }
    hide WellFormed;
    if t.dir {
      RemainingAllIsPruned(t.children, keys);
    } else {
      FilesHaveNoChildren(t);
    }
  }

  lemma FilesHaveNoChildren(t: Tree)
    requires WellFormed(t) && !t.dir
    ensures t.children == []
  {
    assert t in Subtrees(t);
  }

  lemma {:induction false} RemainingAllIsPruned(cs: seq<Tree>, keys: set<string>)
    requires forall c :: c in cs ==> WellFormed(c)
    requires forall c, s :: c in cs && s in Subtrees(c) ==> (s.key in keys <==> IsHollow(s))
    ensures RemainingAll(cs, keys) == PrunedAll(cs)
    decreases cs
  {
    hide WellFormed;
    if cs != [] {
      var init, last := cs[..|cs| - 1], cs[|cs| - 1];
      assert cs == init + [last];
      RemainingAllIsPruned(init, keys);
      RemainingIsPruned(last, keys);
    }
  }
}
