/**
 One publisher's push as the script runs it: a retry loop against a branch that
 others move between its fetch and its push. `rivals[k]` are the trees others
 land while attempt `k` is between the two, and `online[k]` whether its fetch works.
 */
module LedgerPush {
  import opened Wrappers
  import opened LedgerPublish

  datatype Outcome = Pushed | Unchanged | NoUsageDir | GaveUp

  class Origin {
    var commits: seq<Commit>
    var tip: Option<nat>

    ghost predicate Valid()
      reads this
    {
      WellFormed(commits) && (tip.Some? ==> tip.value < |commits|)
    }

    ghost function TreeAtTip(): Tree
      reads this
      requires Valid()
    {
      if tip.Some? then commits[tip.value].tree else map[]
    }

    method Store(commit: Commit) returns (c: nat)
      requires Valid() && (commit.parent.Some? ==> commit.parent.value < |commits|)
      modifies this`commits
      ensures Valid() && c == |old(commits)| && commits == old(commits) + [commit]
      ensures TreeAtTip() == old(TreeAtTip())
    {
      c := |commits|;
      commits := commits + [commit];
    }

    /** Others push, one after the other, each onto the tip it found. */
    method Land(trees: seq<Tree>)
      requires Valid()
      modifies this
      ensures Valid() && old(commits) <= commits
      ensures trees == [] ==> tip == old(tip) && commits == old(commits)
      ensures trees != [] ==> tip.Some? && tip.value >= |old(commits)| && TreeAtTip() == trees[|trees| - 1]
    {
      for i := 0 to |trees|
        invariant Valid() && old(commits) <= commits
        invariant i == 0 ==> tip == old(tip) && commits == old(commits)
        invariant i > 0 ==> tip.Some? && tip.value >= |old(commits)| && TreeAtTip() == trees[i - 1]
      {
        commits := commits + [Commit(tip, trees[i])];
        tip := Some(|commits| - 1);
      }
    }

    /** The server's side of a push without force. */
    method PushRef(c: nat) returns (ok: bool)
      requires Valid() && c < |commits|
      modifies this`tip
      ensures ok == old(tip.None? || Ancestor(commits, tip.value, c))
      ensures Valid() && tip == if ok then Some(c) else old(tip)
    {
      ok := tip.None? || Ancestor(commits, tip.value, c);
      if ok {
        tip := Some(c);
      }
    }
  }

  /** The tip's tree once everything landed during the first `k` attempts is in. */
  function TreeAfter(start: Tree, rivals: seq<seq<Tree>>, k: nat): Tree
    requires k <= |rivals|
  {
    if k == 0 then start
    else if rivals[k - 1] == [] then TreeAfter(start, rivals, k - 1)
    else rivals[k - 1][|rivals[k - 1]| - 1]
  }

  predicate BranchAfter(start: bool, rivals: seq<seq<Tree>>, k: nat)
    requires k <= |rivals|
  {
    start || exists i :: 0 <= i < k && rivals[i] != []
  }

  /** Attempt `k` is lost: someone landed in between, or the branch was there and could not be fetched. */
  predicate Lost(start: bool, rivals: seq<seq<Tree>>, online: seq<bool>, k: nat)
    requires k < |rivals| == |online|
  {
    rivals[k] != [] || (BranchAfter(start, rivals, k) && !online[k])
  }

  lemma NewerIsNotAncestor(commits: seq<Commit>, tip: nat, c: nat)
    requires WellFormed(commits) && tip < |commits| && c < |commits| && tip > c
    ensures !Ancestor(commits, tip, c)
  {
    if Ancestor(commits, tip, c) { AncestorIsEarlier(commits, tip, c); }
  }

  /**
   Every attempt before the last made was lost to others. A push that lands has put
   the one file into the tip's own tree; one that gives up has changed nothing.
   */
  method Push(origin: Origin, person: string, file: Blob, rivals: seq<seq<Tree>>, online: seq<bool>)
    returns (outcome: Outcome, k: nat)
    requires origin.Valid() && |rivals| == |online| == ATTEMPTS
    modifies origin
    ensures origin.Valid() && k <= ATTEMPTS
    ensures forall i :: 0 <= i < k ==> Lost(old(origin.tip.Some?), rivals, online, i)
    ensures outcome.GaveUp? <==> k == ATTEMPTS
    ensures outcome.GaveUp? ==> origin.TreeAtTip() == TreeAfter(old(origin.TreeAtTip()), rivals, ATTEMPTS)
    ensures outcome.Pushed? ==>
              && !Lost(old(origin.tip.Some?), rivals, online, k)
              && origin.TreeAtTip() == PutFile(TreeAfter(old(origin.TreeAtTip()), rivals, k), FileName(person), file)
    ensures outcome.Unchanged? ==>
              origin.TreeAtTip() == PutFile(TreeAfter(old(origin.TreeAtTip()), rivals, k), FileName(person), file)
    ensures outcome.NoUsageDir? ==>
              && origin.TreeAtTip() == TreeAfter(old(origin.TreeAtTip()), rivals, k)
              && !HasUsageDir(origin.TreeAtTip())
  {
    ghost var start, found := origin.tip.Some?, origin.TreeAtTip();
    var name := FileName(person);
    k := 0;
    while k < ATTEMPTS
      invariant origin.Valid() && k <= ATTEMPTS
      invariant origin.TreeAtTip() == TreeAfter(found, rivals, k)
      invariant origin.tip.Some? == BranchAfter(start, rivals, k)
      invariant forall i :: 0 <= i < k ==> Lost(start, rivals, online, i)
    {
      var parent := if online[k] then origin.tip else None;
      var base := if parent.Some? then origin.commits[parent.value].tree else map[];
      if parent.Some? && !HasUsageDir(base) {
        return NoUsageDir, k;
      }
      var tree := PutFile(base, name, file);
      if parent.Some? && tree == base {
        return Unchanged, k;
      }
      var c := origin.Store(Commit(parent, tree));
      ghost var before := origin.tip;
      origin.Land(rivals[k]);
      if rivals[k] != [] || (before.Some? && parent.None?) {
        NotTaken(origin.commits, origin.tip.value, c, rivals[k] != []);
      }
      var ok := origin.PushRef(c);
      if ok {
        return Pushed, k;
      }
      k := k + 1;
    }
    outcome := GaveUp;
  }

  lemma NotTaken(commits: seq<Commit>, tip: nat, c: nat, landed: bool)
    requires WellFormed(commits) && tip < |commits| && c < |commits|
    requires if landed then tip > c else tip != c && commits[c].parent.None?
    ensures !Ancestor(commits, tip, c)
  {
    if landed { NewerIsNotAncestor(commits, tip, c); }
  }
}
