/** The file transaction of `persist_git_mutation`: snapshot, write, validate, commit or put back. */
module GitTransactions {
  import opened Common

  type Path = Token
  type Text = Token
  type Files = map<Path, Text>

  /** `None` is an absent file. */
  type Snapshot = map<Path, Option<Text>>

  /** One atomic write, or one unlink. */
  datatype Edit = Edit(path: Path, text: Option<Text>)

  function Look(files: Files, p: Path): Option<Text> {
    if p in files then Some(files[p]) else None
  }

  function Put(files: Files, p: Path, text: Option<Text>): (r: Files)
    ensures forall q :: Look(r, q) == if q == p then text else Look(files, q)
  {
    if text.Some? then files[p := text.value] else files - {p}
  }

  /** The tree after the first `n` edits. */
  function Written(files: Files, edits: seq<Edit>, n: nat): Files
    requires n <= |edits|
  {
    if n == 0 then files else Put(Written(files, edits, n - 1), edits[n - 1].path, edits[n - 1].text)
  }

  ghost predicate Snapshots(before: Snapshot, files: Files) {
    forall p :: p in before ==> before[p] == Look(files, p)
  }

  /** `before.setdefault(target, None)` for every generated path. */
  function WithGenerated(before: Snapshot, generated: set<Path>): Snapshot {
    map p | p in before.Keys + generated :: if p in before then before[p] else None
  }

  /** What the last of the first `n` edits of a path wrote, if there is one. */
  function LastWritten(edits: seq<Edit>, n: nat, p: Path): Option<Option<Text>>
    requires n <= |edits|
  {
    if n == 0 then None
    else if edits[n - 1].path == p then Some(edits[n - 1].text)
    else LastWritten(edits, n - 1, p)
  }

  /** Every edit is of a snapshotted path or of a generated one, and generated paths outside the snapshot are new. */
  ghost predicate Covered(before: Snapshot, generated: set<Path>, edits: seq<Edit>, files: Files) {
    && (forall i :: 0 <= i < |edits| ==> edits[i].path in before || edits[i].path in generated)
    && (forall p :: p in generated && p !in before ==> p !in files)
  }

  /** No path outside the snapshot is left written: each is either untouched or unlinked again. */
  ghost predicate LeavesNothing(before: Snapshot, edits: seq<Edit>, n: nat)
    requires n <= |edits|
  {
    forall p :: p !in before && LastWritten(edits, n, p).Some? ==> LastWritten(edits, n, p).value.None?
  }

  /** HEAD after committing these paths as they are in the worktree. */
  function Recorded(head: Files, files: Files, paths: set<Path>): Files {
    map p | p in head.Keys + paths && (if p in paths then p in files else p in head) :: if p in paths then files[p] else head[p]
  }

  /** HEAD after `commit`, whether or not anything differs. */
  function AfterCommit(head: Files, files: Files, paths: set<Path>): Files {
    if exists p :: p in paths && Look(head, p) != Look(files, p) then Recorded(head, files, paths) else head
  }

  /** Some changed or retained path is not in HEAD as it is in the worktree. */
  ghost predicate Differing(head: Files, files: Files, full: Snapshot, retained: set<Path>) {
    exists p :: ((p in full && Look(files, p) != full[p]) || (p in retained && p in files)) && Look(head, p) != Look(files, p)
  }

  ghost predicate Agree(head: Files, files: Files, paths: Snapshot) {
    forall p :: p in paths ==> Look(head, p) == Look(files, p)
  }

  /** `RaisedAfterCommit`: the push failed. `Unchanged`: there was nothing to commit. */
  datatype Result = Committed(paths: set<Path>) | Unchanged | RaisedAfterCommit | Raised

  /** Where the attempt raises, if anywhere: after some of the edits, at validation, before the commit lands, when a receipt's commit is read back, or at the push. */
  datatype Fault = NoFault | InEdit(done: nat) | AtValidation | AtCommit | AtReadBack | AtPush

  /** How many edits were made before the fault. */
  function DoneBy(edits: seq<Edit>, fault: Fault): nat {
    if fault.InEdit? then fault.done else |edits|
  }

  /** The worktree and the tree of HEAD. */
  class Tree {
    var files: Files
    var head: Files

    constructor (files: Files, head: Files)
      ensures this.files == files && this.head == head
    {
      this.files, this.head := files, head;
    }

    /** `restore_paths`: every snapshotted path gets its old text or is unlinked; no other path is touched. */
    method Restore(before: Snapshot, order: seq<Path>)
      requires forall p :: p in before <==> p in order
      modifies `files
      ensures forall p :: Look(files, p) == if p in before then before[p] else Look(old(files), p)
    {
      for i := 0 to |order|
        invariant forall p :: Look(files, p) == if p in order[..i] then before[p] else Look(old(files), p)
      {
        var p := order[i];
        files := Put(files, p, before[p]);
      }
      assert order[..|order|] == order;
    }

    /** The changed ones among the snapshotted paths. */
    function Changed(before: Snapshot): set<Path>
      reads this
    {
      set p | p in before && Look(files, p) != before[p]
    }

    method WriteAll(edits: seq<Edit>, n: nat)
      requires n <= |edits|
      modifies `files
      ensures files == Written(old(files), edits, n)
    {
      for i := 0 to n
        invariant files == Written(old(files), edits, i)
      {
        files := Put(files, edits[i].path, edits[i].text);
      }
    }

    /** `commit`: lands iff some of the paths differ from HEAD, and then HEAD has them as they are. */
    method Commit(paths: set<Path>) returns (landed: bool)
      modifies `head
      ensures landed <==> exists p :: p in paths && Look(old(head), p) != Look(files, p)
      ensures head == if landed then Recorded(old(head), files, paths) else old(head)
      ensures landed ==> forall p :: Look(head, p) == if p in paths then Look(files, p) else Look(old(head), p)
    {
      landed := exists p :: p in paths && Look(head, p) != Look(files, p);
      if landed { head := Recorded(head, files, paths); }
    }

    /** `commit_persisted_mutation` and the push, on a validated worktree; every raise before `committed` is known puts the snapshot back. */
    method Conclude(full: Snapshot, order: seq<Path>, retained: set<Path>, receipt: bool, fault: Fault) returns (r: Result)
      requires forall p :: p in full <==> p in order
      modifies this
      ensures r.Raised? ==> forall p :: Look(files, p) == if p in full then full[p] else Look(old(files), p)
      ensures !r.Raised? ==> files == old(files)
      ensures r.Committed? ==> r.paths == old(Changed(full)) + set p | p in retained && p in old(files)
      ensures r.Committed? ==> head == Recorded(old(head), files, r.paths)
      ensures r.Unchanged? ==> head == old(head)
      // Without a fault the outcome is what there is to commit, and a receipt insists that there is something.
      ensures fault.NoFault? ==>
        var paths := old(Changed(full)) + set p | p in retained && p in old(files);
        if exists p :: p in paths && Look(old(head), p) != Look(old(files), p) then r == Committed(paths) else r == if receipt then Raised else Unchanged
      ensures !receipt && fault.AtPush? ==>
        var paths := old(Changed(full)) + set p | p in retained && p in old(files);
        r == if exists p :: p in paths && Look(old(head), p) != Look(old(files), p) then RaisedAfterCommit else Raised
      ensures r.Raised? && !(receipt && fault.AtReadBack?) ==> head == old(head)
      ensures fault.AtReadBack? && receipt ==> r.Raised?
      ensures fault.AtCommit? ==> r.Raised?
      ensures fault.AtReadBack? && receipt ==> head == AfterCommit(old(head), old(files), old(Changed(full)) + set p | p in retained && p in old(files))
    {
      if fault.AtCommit? {
        Restore(full, order);
        return Raised;
      }
      var paths := Changed(full) + set p | p in retained && p in files;
      var landed := Commit(paths);
      if receipt && (!landed || fault.AtReadBack?) {
        Restore(full, order);
        return Raised;
      }
      if !receipt && fault.AtPush? {
        if landed { return RaisedAfterCommit; }
        Restore(full, order);
        return Raised;
      }
      return if landed then Committed(paths) else Unchanged;
    }

    /** `persist_git_mutation`; `order` and `fullOrder` list the snapshot before and after the generated paths are added. */
    method Persist(before: Snapshot, order: seq<Path>, edits: seq<Edit>, generated: set<Path>, fullOrder: seq<Path>, retained: set<Path>, receipt: bool, fault: Fault)
      returns (r: Result)
      requires Snapshots(before, files)
      requires forall p :: p in before <==> p in order
      requires forall p :: p in WithGenerated(before, generated) <==> p in fullOrder
      requires fault.InEdit? ==> fault.done <= |edits|
      modifies this
      // Every snapshotted path has its old text whenever the call raises before it knows of a commit.
      ensures r.Raised? ==> forall p :: p in before ==> Look(files, p) == Look(old(files), p)
      // The whole worktree is as before exactly when no new path was left written, or the generated paths were put back too.
      ensures r.Raised? && Covered(before, generated, edits, old(files)) ==>
        (files == old(files) <==> !(fault.InEdit? || fault.AtValidation?) || LeavesNothing(before, edits, DoneBy(edits, fault)))
      ensures !r.Raised? ==> files == Written(old(files), edits, |edits|)
      ensures r.Committed? ==> head == Recorded(old(head), files, r.paths)
      ensures r.Committed? ==> forall p :: p in r.paths <==>
        || (p in WithGenerated(before, generated) && Look(files, p) != WithGenerated(before, generated)[p]) || (p in retained && p in files)
      ensures fault.InEdit? || fault.AtValidation? || fault.AtCommit? ==> r.Raised?
      // Without a fault the call commits what it changed, unless HEAD has it already; only a receipt raises on that.
      ensures fault.NoFault? && Differing(old(head), Written(old(files), edits, |edits|), WithGenerated(before, generated), retained) ==> r.Committed?
      ensures fault.NoFault? && !Differing(old(head), Written(old(files), edits, |edits|), WithGenerated(before, generated), retained) ==>
        r == if receipt then Raised else Unchanged
      // A raise leaves HEAD alone, except when a receipt's landed commit could not be read back.
      ensures r.Raised? && !(receipt && fault.AtReadBack?) ==> head == old(head)
      ensures fault.AtReadBack? && receipt && Covered(before, generated, edits, old(files)) && Agree(old(head), old(files), WithGenerated(before, generated)) ==>
        (Agree(head, files, WithGenerated(before, generated)) <==> Written(old(files), edits, |edits|) == old(files))
    {
      if fault.InEdit? {
        WriteAll(edits, fault.done);
        ghost var written := files;
        Restore(before, order);
        RestoredIff(old(files), before, generated, edits, fault.done, files);
        return Raised;
      }
      WriteAll(edits, |edits|);
      if fault.AtValidation? {
        Restore(before, order);
        RestoredIff(old(files), before, generated, edits, |edits|, files);
        return Raised;
      }
      var full := WithGenerated(before, generated);
      r := Conclude(full, fullOrder, retained, receipt, fault);
      if r.Raised? { FullyRestored(old(files), before, generated, edits, files); }
      if fault.AtReadBack? && receipt { ReadBackIff(old(files), old(head), before, generated, edits, retained, files, head); }
    }
  }

  // ---- What is put back -----------------------------------------------------

  lemma SameFiles(a: Files, b: Files)
    requires forall p :: Look(a, p) == Look(b, p)
    ensures a == b
  {
    forall p | p in a ensures p in b && a[p] == b[p] { assert Look(a, p) == Look(b, p); }
    forall p | p in b ensures p in a { assert Look(a, p) == Look(b, p); }
  }

  lemma {:induction false} WrittenIsLast(files: Files, edits: seq<Edit>, n: nat, p: Path)
    requires n <= |edits|
    ensures Look(Written(files, edits, n), p) == if LastWritten(edits, n, p).Some? then LastWritten(edits, n, p).value else Look(files, p)
  {
    if n > 0 { WrittenIsLast(files, edits, n - 1, p); }
  }

  lemma {:induction false} LastIsEdited(edits: seq<Edit>, n: nat, p: Path)
    requires n <= |edits| && LastWritten(edits, n, p).Some?
    ensures exists i :: 0 <= i < n && edits[i].path == p
  {
    if edits[n - 1].path != p { LastIsEdited(edits, n - 1, p); }
  }

  /** `result` is the tree after `n` edits with these paths put back. */
  ghost predicate PutBack(files: Files, kept: Snapshot, edits: seq<Edit>, n: nat, result: Files)
    requires n <= |edits|
  {
    forall p :: Look(result, p) == if p in kept then kept[p] else Look(Written(files, edits, n), p)
  }

  /** Putting back the snapshot gives the whole tree back iff, outside it, the last edit of every edited path unlinks it. */
  lemma RestoredIff(files: Files, before: Snapshot, generated: set<Path>, edits: seq<Edit>, n: nat, result: Files)
    requires Snapshots(before, files) && n <= |edits| && PutBack(files, before, edits, n, result)
    ensures Covered(before, generated, edits, files) ==> (result == files <==> LeavesNothing(before, edits, n))
  {
    if Covered(before, generated, edits, files) {
      forall p ensures Look(result, p) == Look(files, p) <==> (p in before || LastWritten(edits, n, p).None? || LastWritten(edits, n, p).value.None?) {
        WrittenIsLast(files, edits, n, p);
        if LastWritten(edits, n, p).Some? { LastIsEdited(edits, n, p); }
      }
      if LeavesNothing(before, edits, n) { SameFiles(result, files); }
    }
  }

  /** Putting back the generated paths as well always gives the whole tree back. */
  lemma FullyRestored(files: Files, before: Snapshot, generated: set<Path>, edits: seq<Edit>, result: Files)
    requires Snapshots(before, files) && PutBack(files, WithGenerated(before, generated), edits, |edits|, result)
    ensures Covered(before, generated, edits, files) ==> result == files
  {
    if Covered(before, generated, edits, files) {
      forall p ensures Look(result, p) == Look(files, p) {
        WrittenIsLast(files, edits, |edits|, p);
        if LastWritten(edits, |edits|, p).Some? { LastIsEdited(edits, |edits|, p); }
      }
      SameFiles(result, files);
    }
  }

  /** After a read-back failure HEAD and the worktree agree only if the mutation changed nothing. */
  lemma ReadBackIff(files: Files, head: Files, before: Snapshot, generated: set<Path>, edits: seq<Edit>, retained: set<Path>, result: Files, head': Files)
    requires Snapshots(before, files) && PutBack(files, WithGenerated(before, generated), edits, |edits|, result)
    requires var written := Written(files, edits, |edits|); var full := WithGenerated(before, generated);
      head' == AfterCommit(head, written, (set p | p in full && Look(written, p) != full[p]) + set p | p in retained && p in written)
    ensures Covered(before, generated, edits, files) && Agree(head, files, WithGenerated(before, generated)) ==>
      (Agree(head', result, WithGenerated(before, generated)) <==> Written(files, edits, |edits|) == files)
  {
    var full, written := WithGenerated(before, generated), Written(files, edits, |edits|);
    if Covered(before, generated, edits, files) && Agree(head, files, full) {
      forall p ensures Look(result, p) == Look(files, p) && (p !in full ==> Look(written, p) == Look(files, p)) && (p in full ==> full[p] == Look(files, p)) {
        FullyRestored(files, before, generated, edits, result);
        WrittenIsLast(files, edits, |edits|, p);
        if LastWritten(edits, |edits|, p).Some? { LastIsEdited(edits, |edits|, p); }
      }
      forall p | p in full ensures Look(head', p) == Look(written, p) {
        if Look(written, p) != full[p] { assert Look(head, p) != Look(written, p); }
      }
      if Agree(head', result, full) { SameFiles(written, files); }
    }
  }

  lemma {:induction false} UntouchedStays(files: Files, edits: seq<Edit>, n: nat, p: Path)
    requires n <= |edits| && forall i :: 0 <= i < n ==> edits[i].path != p
    ensures Look(Written(files, edits, n), p) == Look(files, p)
  {
    if n > 0 { UntouchedStays(files, edits, n - 1, p); }
  }

  /** When the edits only touch snapshotted paths, any failure before the commit restores the whole tree. */
  lemma SnapshottedEditsComeBack(files: Files, before: Snapshot, generated: set<Path>, edits: seq<Edit>, n: nat, result: Files)
    requires Snapshots(before, files) && Covered(before, generated, edits, files) && n <= |edits| && PutBack(files, before, edits, n, result)
    requires forall i :: 0 <= i < |edits| ==> edits[i].path in before
    ensures result == files
  {
    RestoredIff(files, before, generated, edits, n, result);
    forall p | LastWritten(edits, n, p).Some? ensures p in before { LastIsEdited(edits, n, p); }
  }

  /** A generated shard written for the first time is left behind by a restored snapshot, and unlinked when the generated paths are put back too. */
  lemma NewShardStays(files: Files, before: Snapshot, shard: Path, text: Text, others: seq<Edit>, result: Files, full: Files)
    requires Snapshots(before, files) && shard !in before && shard !in files
    requires var edits := others + [Edit(shard, Some(text))];
      PutBack(files, before, edits, |edits|, result) && PutBack(files, WithGenerated(before, {shard}), edits, |edits|, full)
    ensures Look(result, shard) == Some(text) && result != files
    ensures Look(full, shard) == None
  {
    var edits := others + [Edit(shard, Some(text))];
    assert edits[|edits| - 1] == Edit(shard, Some(text));
    WrittenIsLast(files, edits, |edits|, shard);
  }

  /** A successful commit covers every path the edits changed, as long as each is snapshotted or generated. */
  lemma CommitCoversChanges(files: Files, before: Snapshot, edits: seq<Edit>, generated: set<Path>, p: Path)
    requires Snapshots(before, files)
    requires forall q :: q in generated && q !in before ==> q !in files
    requires forall i :: 0 <= i < |edits| ==> edits[i].path in before || edits[i].path in generated
    requires Look(Written(files, edits, |edits|), p) != Look(files, p)
    ensures p in WithGenerated(before, generated)
    ensures Look(Written(files, edits, |edits|), p) != WithGenerated(before, generated)[p]
  {
    if p !in before && p !in generated { UntouchedStays(files, edits, |edits|, p); }
  }
}
