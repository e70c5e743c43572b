/**
 Publishing ledgers on one shared branch: everyone fetches, builds a commit on
 what they fetched with their own file replaced, and pushes without force. A
 push that lost the race is refused and tried again on the new tip.
 */
module LedgerPublish {
  import opened Wrappers
  import opened ClaudeUsage
  import opened LedgerMerge

  datatype Blob = LedgerFile(days: Days, updated: string) | OtherFile(text: string)

  datatype Node = FileNode(blob: Blob) | DirNode(entries: map<string, Blob>)

  type Tree = map<string, Node>

  datatype Commit = Commit(parent: Option<nat>, tree: Tree)

  const ATTEMPTS := 3

  function FileName(person: string): string {
    "claude-usage-" + person + ".json"
  }

  /** Different people have different files. */
  lemma NamesAreInjective(a: string, b: string)
    ensures FileName(a) == FileName(b) <==> a == b
  {
    var head, tail := "claude-usage-", ".json";
    assert (head + a)[|head|..] == a && (head + b)[|head|..] == b;
    if FileName(a) == FileName(b) {
      assert |a| == |b|;
      assert FileName(a)[..|head + a|] == head + a && FileName(b)[..|head + b|] == head + b;
    }
  }

  predicate HasUsageDir(t: Tree) {
    "usage" in t && t["usage"].DirNode?
  }

  function UsageOf(t: Tree): map<string, Blob> {
    if HasUsageDir(t) then t["usage"].entries else map[]
  }

  function PutFile(t: Tree, name: string, blob: Blob): Tree {
    t["usage" := DirNode(UsageOf(t)[name := blob])]
  }

  // ---- Rebuilding a tree from its listing ----

  function Entries<T>(lines: seq<(string, T)>): map<string, T> {
    if lines == [] then map[] else Entries(lines[..|lines| - 1])[lines[|lines| - 1].0 := lines[|lines| - 1].1]
  }

  lemma {:induction false} EntriesWithout<T>(lines: seq<(string, T)>, kept: seq<(string, T)>, line: (string, T), name: string)
    requires Entries(kept) == Entries(lines) - {name}
    ensures Entries(kept + [line])[name := line.1] == Entries(lines + [line])[name := line.1]
    ensures line.0 != name ==> Entries(kept + [line]) == Entries(lines + [line]) - {name}
    ensures line.0 == name ==> Entries(kept) == Entries(lines + [line]) - {name}
  {
    assert (kept + [line])[..|kept|] == kept && (lines + [line])[..|lines|] == lines;
  }

  /** The listing with `name`'s line, if any, left out and a new one added at the end. */
  method Replaced<T>(listing: seq<(string, T)>, name: string, entry: T) returns (lines: seq<(string, T)>)
    ensures Entries(lines) == Entries(listing)[name := entry]
    ensures forall i :: 0 <= i < |lines| - 1 ==> lines[i].0 != name
  {
    lines := [];
    for i := 0 to |listing|
      invariant Entries(lines) == Entries(listing[..i]) - {name}
      invariant forall j :: 0 <= j < |lines| ==> lines[j].0 != name
    {
      assert listing[..i + 1] == listing[..i] + [listing[i]];
      EntriesWithout(listing[..i], lines, listing[i], name);
      if listing[i].0 != name {
        lines := lines + [listing[i]];
      }
    }
    assert listing[..|listing|] == listing;
    assert (lines + [(name, entry)])[..|lines|] == lines;
    lines := lines + [(name, entry)];
  }

  /** The tree of the next commit, from the two listings of its parent's tree. */
  method BuildTree(usage: seq<(string, Blob)>, root: seq<(string, Node)>, name: string, blob: Blob) returns (lines: seq<(string, Node)>)
    requires UsageOf(Entries(root)) == Entries(usage)
    ensures Entries(lines) == PutFile(Entries(root), name, blob)
  {
    var usageLines := Replaced(usage, name, blob);
    lines := Replaced(root, "usage", DirNode(Entries(usageLines)));
  }

  // ---- Everyone publishing ----

  datatype Phase =
    | Resting
    | Trying(file: Blob, left: nat)
    | Fetched(file: Blob, left: nat, parent: Option<nat>)
    | Built(file: Blob, left: nat, commit: nat)

  datatype Publisher = Publisher(person: string, local: Days, phase: Phase)

  /** The shared branch, everyone's own machine, and the file each person last pushed successfully. */
  datatype State = State(
    commits: seq<Commit>, tip: Option<nat>, publishers: map<nat, Publisher>, published: map<string, Blob>)

  datatype Step =
    | Begin(who: nat, scanned: Days, readOk: bool, updated: string, publish: bool)
    | Fetch(who: nat, ok: bool)
    | Build(who: nat)
    | Push(who: nat)

  predicate WellFormed(commits: seq<Commit>) {
    forall i :: 0 <= i < |commits| && commits[i].parent.Some? ==> commits[i].parent.value < i
  }

  /** `i` is `j` or one of the commits `j` was built on. */
  predicate Ancestor(commits: seq<Commit>, i: nat, j: nat)
    requires WellFormed(commits) && j < |commits|
    decreases j
  {
    i == j || (commits[j].parent.Some? && Ancestor(commits, i, commits[j].parent.value))
  }

  predicate RefsExist(s: State) {
    && WellFormed(s.commits)
    && (s.tip.Some? ==> s.tip.value < |s.commits|)
    && forall w <- s.publishers :: PhaseRefsExist(s, s.publishers[w].phase)
  }

  predicate PhaseRefsExist(s: State, phase: Phase) {
    && (phase.Fetched? && phase.parent.Some? ==> phase.parent.value < |s.commits|)
    && (phase.Built? ==> phase.commit < |s.commits|)
  }

  function TipTree(s: State): Tree
    requires RefsExist(s)
  {
    if s.tip.Some? then s.commits[s.tip.value].tree else map[]
  }

  function DaysIn(t: Tree, person: string): Days {
    var usage := UsageOf(t);
    if FileName(person) in usage && usage[FileName(person)].LedgerFile? then usage[FileName(person)].days else map[]
  }

  /** A push without force is taken when it creates the branch or the tip is behind the pushed commit. */
  predicate FastForward(s: State, commit: nat)
    requires RefsExist(s) && commit < |s.commits|
  {
    s.tip.None? || Ancestor(s.commits, s.tip.value, commit)
  }

  function SetPhase(s: State, who: nat, phase: Phase): State
    requires who in s.publishers
  {
    s.(publishers := s.publishers[who := s.publishers[who].(phase := phase)])
  }

  /** One run of the script up to its push: the published copy, when it can be read, goes in before the scan. */
  ghost function OnBegin(s: State, step: Step): State
    requires RefsExist(s) && step.Begin? && step.who in s.publishers
  {
    var me := s.publishers[step.who];
    var days := Updated(me.local, if step.readOk then DaysIn(TipTree(s), me.person) else map[], step.scanned);
    var phase := if step.publish then Trying(LedgerFile(days, step.updated), ATTEMPTS) else Resting;
    s.(publishers := s.publishers[step.who := Publisher(me.person, days, phase)])
  }

  /** A listing of a directory that is not there fails, and with it the run; a tree that is the parent's is not committed. */
  function OnBuild(s: State, who: nat): State
    requires RefsExist(s) && who in s.publishers && s.publishers[who].phase.Fetched?
  {
    var me := s.publishers[who];
    var parent, file := me.phase.parent, me.phase.file;
    var base := if parent.Some? then s.commits[parent.value].tree else map[];
    var tree := PutFile(base, FileName(me.person), file);
    if parent.Some? && (!HasUsageDir(base) || tree == base) then SetPhase(s, who, Resting)
    else SetPhase(s, who, Built(file, me.phase.left, |s.commits|)).(commits := s.commits + [Commit(parent, tree)])
  }

  function OnPush(s: State, who: nat): State
    requires RefsExist(s) && who in s.publishers && s.publishers[who].phase.Built?
  {
    var me := s.publishers[who];
    if FastForward(s, me.phase.commit) then
      SetPhase(s, who, Resting).(tip := Some(me.phase.commit), published := s.published[me.person := me.phase.file])
    else if me.phase.left <= 1 then SetPhase(s, who, Resting)
    else SetPhase(s, who, Trying(me.phase.file, me.phase.left - 1))
  }

  ghost function Next(s: State, step: Step): State
    requires RefsExist(s)
  {
    if step.who !in s.publishers then s
    else
      var phase := s.publishers[step.who].phase;
      match step
      case Begin(_, _, _, _, _) => if phase.Resting? then OnBegin(s, step) else s
      case Fetch(who, ok) =>
        if phase.Trying? then SetPhase(s, who, Fetched(phase.file, phase.left, if ok then s.tip else None)) else s
      case Build(who) => if phase.Fetched? then OnBuild(s, who) else s
      case Push(who) => if phase.Built? then OnPush(s, who) else s
  }

  /** The branch as found: absent, or one commit with any tree. */
  predicate Initial(s: State) {
    && (s.tip.None? ==> s.commits == [])
    && (s.tip.Some? ==> s.tip.value == 0 && |s.commits| == 1 && s.commits[0].parent.None?)
    && s.published == map[]
    && forall w <- s.publishers :: s.publishers[w].phase.Resting?
  }

  lemma InitialRefs(s: State)
    requires Initial(s)
    ensures RefsExist(s)
  {
  }

  ghost predicate Run(ss: seq<State>, steps: seq<Step>) {
    && |ss| == |steps| + 1 && Initial(ss[0])
    && forall i :: 0 <= i < |steps| ==> RefsExist(ss[i]) && ss[i + 1] == Next(ss[i], steps[i])
  }

  // ---- The tip holds what everyone last published ----

  ghost predicate IsPublishedName(published: map<string, Blob>, name: string) {
    exists p <- published :: FileName(p) == name
  }

  /** `t` is the tree the branch was found with, with the published files in it and nothing else changed. */
  ghost predicate Holds(t: Tree, found: Tree, published: map<string, Blob>) {
    && (forall p <- published :: FileName(p) in UsageOf(t) && UsageOf(t)[FileName(p)] == published[p])
    && (forall name: string :: !IsPublishedName(published, name) ==> SameEntry(UsageOf(t), UsageOf(found), name))
    && (forall name: string :: name != "usage" ==> SameEntry(t, found, name))
    && (published == map[] ==> t == found)
  }

  ghost predicate SameEntry<T>(a: map<string, T>, b: map<string, T>, name: string) {
    (name in a <==> name in b) && (name in a && name in b ==> a[name] == b[name])
  }

  lemma PutFileHolds(t: Tree, found: Tree, published: map<string, Blob>, person: string, file: Blob)
    requires Holds(t, found, published)
    ensures Holds(PutFile(t, FileName(person), file), found, published[person := file])
  {
    var after, all := PutFile(t, FileName(person), file), published[person := file];
    forall p | p in all ensures FileName(p) in UsageOf(after) && UsageOf(after)[FileName(p)] == all[p] {
      NamesAreInjective(p, person);
    }
    forall name: string | !IsPublishedName(all, name) ensures SameEntry(UsageOf(after), UsageOf(found), name) {
      assert person in all && FileName(person) != name;
      assert forall p :: p in published ==> p in all;
      assert !IsPublishedName(published, name);
    }
    forall name: string | name != "usage" ensures SameEntry(after, found, name) {
      assert SameEntry(t, found, name);
    }
  }

  lemma {:induction false} AncestorIsEarlier(commits: seq<Commit>, i: nat, j: nat)
    requires WellFormed(commits) && j < |commits| && Ancestor(commits, i, j)
    ensures i <= j
    decreases j
  {
    if i != j { AncestorIsEarlier(commits, i, commits[j].parent.value); }
  }

  lemma {:induction false} AncestorsStay(commits: seq<Commit>, more: seq<Commit>, i: nat, j: nat)
    requires WellFormed(commits) && j < |commits| && WellFormed(commits + more)
    ensures Ancestor(commits + more, i, j) == Ancestor(commits, i, j)
    decreases j
  {
    if i != j && commits[j].parent.Some? { AncestorsStay(commits, more, i, commits[j].parent.value); }
  }

  /** What a publisher holds between its fetch and its push was, and still is, behind the tip. */
  ghost predicate PhaseSound(s: State, me: Publisher)
    requires RefsExist(s) && PhaseRefsExist(s, me.phase)
  {
    match me.phase
    case Fetched(_, _, parent) => Behind(s, parent)
    case Built(file, _, c) =>
      var parent := s.commits[c].parent;
      && Behind(s, parent)
      && s.commits[c].tree
         == PutFile(if parent.Some? then s.commits[parent.value].tree else map[], FileName(me.person), file)
    case _ => true
  }

  ghost predicate Behind(s: State, parent: Option<nat>)
    requires RefsExist(s)
  {
    parent.Some? ==> s.tip.Some? && parent.value < |s.commits| && Ancestor(s.commits, parent.value, s.tip.value)
  }

  ghost predicate Inv(s: State, found: Option<Tree>) {
    && RefsExist(s)
    && (s.tip.None? ==> found.None? && s.published == map[])
    && (s.tip.Some? ==> Holds(TipTree(s), if found.Some? then found.value else map[], s.published))
    && (found.None? && s.tip.Some? ==> s.published != map[])
    && forall w <- s.publishers :: PhaseSound(s, s.publishers[w])
  }

  /** In any state a run can reach, a push is taken exactly when its commit was built on the present tip. */
  lemma FastForwardIsParentTip(s: State, found: Option<Tree>, who: nat)
    requires Inv(s, found) && who in s.publishers && s.publishers[who].phase.Built?
    ensures var c := s.publishers[who].phase.commit;
            FastForward(s, c) <==> s.commits[c].parent == s.tip || s.tip == Some(c)
  {
    var c := s.publishers[who].phase.commit;
    var parent := s.commits[c].parent;
    assert PhaseSound(s, s.publishers[who]);
    if s.tip.Some? && parent.Some? && Ancestor(s.commits, s.tip.value, parent.value) {
      AncestorIsEarlier(s.commits, s.tip.value, parent.value);
      AncestorIsEarlier(s.commits, parent.value, s.tip.value);
    }
    if s.tip.Some? && s.tip == parent {
      assert Ancestor(s.commits, s.tip.value, parent.value);
    }
  }

  lemma OthersStaySound(s: State, t: State, me: Publisher)
    requires RefsExist(s) && RefsExist(t) && PhaseRefsExist(s, me.phase) && PhaseSound(s, me)
    requires s.commits == t.commits
    requires s.tip == t.tip || (t.tip.Some? && (s.tip.Some? ==> Ancestor(s.commits, s.tip.value, t.tip.value)))
    ensures PhaseRefsExist(t, me.phase) && PhaseSound(t, me)
  {
    var parent := if me.phase.Fetched? then me.phase.parent else if me.phase.Built? then s.commits[me.phase.commit].parent else None;
    if parent.Some? && s.tip != t.tip {
      AncestorTrans(s.commits, parent.value, s.tip.value, t.tip.value);
    }
  }

  lemma {:induction false} AncestorTrans(commits: seq<Commit>, i: nat, j: nat, k: nat)
    requires WellFormed(commits) && j < |commits| && k < |commits| && Ancestor(commits, i, j) && Ancestor(commits, j, k)
    ensures Ancestor(commits, i, k)
    decreases k
  {
    if j != k { AncestorTrans(commits, i, j, commits[k].parent.value); }
  }

  lemma GrowStaysSound(s: State, t: State, me: Publisher, commit: Commit)
    requires RefsExist(s) && RefsExist(t) && PhaseRefsExist(s, me.phase) && PhaseSound(s, me)
    requires t.commits == s.commits + [commit] && s.tip == t.tip
    ensures PhaseRefsExist(t, me.phase) && PhaseSound(t, me)
  {
    if s.tip.Some? {
      if me.phase.Fetched? && me.phase.parent.Some? {
        AncestorsStay(s.commits, [commit], me.phase.parent.value, s.tip.value);
      }
      if me.phase.Built? && s.commits[me.phase.commit].parent.Some? {
        AncestorsStay(s.commits, [commit], s.commits[me.phase.commit].parent.value, s.tip.value);
      }
    }
  }

  lemma BuildKeepsInv(s: State, found: Option<Tree>, who: nat)
    requires Inv(s, found) && who in s.publishers && s.publishers[who].phase.Fetched?
    ensures Inv(OnBuild(s, who), found)
  {
    var t := OnBuild(s, who);
    var me := s.publishers[who];
    assert PhaseSound(s, me);
    if t.commits != s.commits {
      var commit := t.commits[|s.commits|];
      assert t.commits == s.commits + [commit];
      assert WellFormed(t.commits);
      assert RefsExist(t);
      if me.phase.parent.Some? {
        AncestorsStay(s.commits, [commit], me.phase.parent.value, s.tip.value);
      }
      forall w | w in t.publishers ensures PhaseSound(t, t.publishers[w]) {
        if w != who {
          assert PhaseSound(s, s.publishers[w]);
          GrowStaysSound(s, t, s.publishers[w], commit);
        }
      }
    } else {
      forall w | w in t.publishers ensures PhaseSound(t, t.publishers[w]) {
        if w != who { OthersStaySound(s, t, s.publishers[w]); }
      }
    }
  }

  /** A push leaves the branch alone or puts exactly the publisher's own file on the tip's tree. */
  lemma PushedTip(s: State, found: Option<Tree>, who: nat)
    requires Inv(s, found) && who in s.publishers && s.publishers[who].phase.Built?
    ensures var me, t := s.publishers[who], OnPush(s, who);
            && RefsExist(t)
            && (TipTree(t) == TipTree(s) || TipTree(t) == PutFile(TipTree(s), FileName(me.person), me.phase.file))
            && (t.published != s.published ==>
                  FileName(me.person) in UsageOf(TipTree(t)) && UsageOf(TipTree(t))[FileName(me.person)] == me.phase.file)
            && (t.tip == s.tip || (t.tip.Some? && (s.tip.Some? ==> Ancestor(s.commits, s.tip.value, t.tip.value))))
  {
    assert PhaseSound(s, s.publishers[who]);
    if FastForward(s, s.publishers[who].phase.commit) {
      FastForwardIsParentTip(s, found, who);
    }
  }

  lemma PushHolds(s: State, found: Option<Tree>, who: nat)
    requires Inv(s, found) && who in s.publishers && s.publishers[who].phase.Built?
    requires FastForward(s, s.publishers[who].phase.commit)
    ensures RefsExist(OnPush(s, who))
    ensures Holds(TipTree(OnPush(s, who)), if found.Some? then found.value else map[], OnPush(s, who).published)
  {
    var me := s.publishers[who];
    var base := if found.Some? then found.value else map[];
    assert PhaseSound(s, me);
    FastForwardIsParentTip(s, found, who);
    if s.tip == Some(me.phase.commit) {
      SamePushHolds(TipTree(s), base, s.published, me.person, me.phase.file);
    } else {
      PutFileHolds(TipTree(s), base, s.published, me.person, me.phase.file);
    }
  }

  lemma PushKeepsInv(s: State, found: Option<Tree>, who: nat)
    requires Inv(s, found) && who in s.publishers && s.publishers[who].phase.Built?
    ensures Inv(OnPush(s, who), found)
  {
    var t := OnPush(s, who);
    PushedTip(s, found, who);
    if FastForward(s, s.publishers[who].phase.commit) {
      PushHolds(s, found, who);
      assert s.publishers[who].person in t.published;
    }
    forall w | w in t.publishers ensures PhaseSound(t, t.publishers[w]) {
      if w != who { OthersStaySound(s, t, s.publishers[w]); }
    }
  }

  lemma SamePushHolds(t: Tree, found: Tree, published: map<string, Blob>, person: string, file: Blob)
    requires Holds(t, found, published) && FileName(person) in UsageOf(t) && UsageOf(t)[FileName(person)] == file
    requires "usage" in t
    ensures Holds(t, found, published[person := file])
  {
    var all := published[person := file];
    assert forall p :: p in published ==> p in all;
    forall p | p in all ensures FileName(p) in UsageOf(t) && UsageOf(t)[FileName(p)] == all[p] {
      NamesAreInjective(p, person);
    }
    forall name: string | !IsPublishedName(all, name) ensures SameEntry(UsageOf(t), UsageOf(found), name) {
      assert !IsPublishedName(published, name);
    }
  }

  /** Beginning a run, or fetching, touches nothing but the publisher's own phase. */
  lemma QuietKeepsInv(s: State, found: Option<Tree>, t: State, who: nat)
    requires Inv(s, found) && who in s.publishers
    requires t == s.(publishers := t.publishers) && t.publishers.Keys == s.publishers.Keys
    requires forall w <- s.publishers :: w != who ==> t.publishers[w] == s.publishers[w]
    requires var phase := t.publishers[who].phase;
             phase.Resting? || phase.Trying? || (phase.Fetched? && (phase.parent.None? || phase.parent == s.tip))
    ensures Inv(t, found)
  {
    forall w | w in t.publishers && w != who ensures PhaseRefsExist(t, t.publishers[w].phase) && PhaseSound(t, t.publishers[w]) {
      assert PhaseSound(s, s.publishers[w]);
    }
  }

  lemma NextKeepsInv(s: State, found: Option<Tree>, step: Step)
    requires Inv(s, found)
    ensures Inv(Next(s, step), found)
  {
    if step.who in s.publishers && Next(s, step) != s {
      match step {
        case Build(who) => { BuildKeepsInv(s, found, who); }
        case Push(who) => { PushKeepsInv(s, found, who); }
        case Begin(who, _, _, _, _) => { QuietKeepsInv(s, found, Next(s, step), who); }
        case Fetch(who, _) => { QuietKeepsInv(s, found, Next(s, step), who); }
      }
    }
  }

  ghost function Found(s: State): Option<Tree>
    requires Initial(s)
  {
    if s.tip.Some? then Some(s.commits[s.tip.value].tree) else None
  }

  lemma {:induction false} RunKeepsInv(ss: seq<State>, steps: seq<Step>, i: nat)
    requires Run(ss, steps) && i < |ss|
    ensures Inv(ss[i], Found(ss[0]))
  {
    if i == 0 {
      InitialRefs(ss[0]);
    } else {
      RunKeepsInv(ss, steps, i - 1);
      NextKeepsInv(ss[i - 1], Found(ss[0]), steps[i - 1]);
    }
  }

  /**
   However any number of publishers' fetches, builds, pushes, refusals and retries
   interleave, the tip holds for each person exactly the file they last pushed
   successfully, and every other entry is as the branch was found.
   */
  lemma TipHoldsLastPublished(ss: seq<State>, steps: seq<Step>, i: nat)
    requires Run(ss, steps) && i < |ss|
    ensures RefsExist(ss[i])
    ensures Holds(TipTree(ss[i]), if Found(ss[0]).Some? then Found(ss[0]).value else map[], ss[i].published)
  {
    RunKeepsInv(ss, steps, i);
  }

  // ---- Exactly when a published day is lost ----

  /** Every day on branch `s` is on branch `t`, with at least as many requests. */
  ghost predicate TipCovers(t: Tree, s: Tree) {
    forall person: string :: Covers(DaysIn(t, person), DaysIn(s, person))
  }

  function FileDays(file: Blob): Days {
    if file.LedgerFile? then file.days else map[]
  }

  lemma PutFileDays(t: Tree, person: string, file: Blob, q: string)
    ensures DaysIn(PutFile(t, FileName(person), file), q) == if q == person then FileDays(file) else DaysIn(t, q)
  {
    NamesAreInjective(person, q);
  }

  ghost predicate Pushing(s: State, step: Step) {
    step.who in s.publishers && step.Push? && s.publishers[step.who].phase.Built?
  }

  /** The push is one the server takes. */
  ghost predicate Lands(s: State, step: Step)
    requires RefsExist(s)
  {
    Pushing(s, step) && FastForward(s, s.publishers[step.who].phase.commit)
  }

  /** The file about to land has all its person's days that are on the branch, each with as many requests. */
  ghost predicate CoversTip(s: State, step: Step)
    requires RefsExist(s) && Pushing(s, step)
  {
    var me := s.publishers[step.who];
    Covers(FileDays(me.phase.file), DaysIn(TipTree(s), me.person))
  }

  lemma PutFileCovers(t: Tree, person: string, file: Blob)
    ensures TipCovers(PutFile(t, FileName(person), file), t) <==> Covers(FileDays(file), DaysIn(t, person))
  {
    var after := PutFile(t, FileName(person), file);
    PutFileDays(t, person, file, person);
    forall q: string ensures q != person ==> Covers(DaysIn(after, q), DaysIn(t, q)) {
      PutFileDays(t, person, file, q);
      CoversItself(DaysIn(t, q));
    }
    assert TipCovers(after, t) ==> Covers(DaysIn(after, person), DaysIn(t, person));
  }

  /** A push that is taken loses no published day and no request of one if and only if its file covers its person's days on the branch. */
  lemma LandingKeepsDaysIff(s: State, found: Option<Tree>, step: Step)
    requires Inv(s, found) && Lands(s, step)
    ensures RefsExist(Next(s, step))
    ensures TipCovers(TipTree(Next(s, step)), TipTree(s)) <==> CoversTip(s, step)
  {
    var me, t := s.publishers[step.who], OnPush(s, step.who);
    FastForwardIsParentTip(s, found, step.who);
    assert PhaseSound(s, me);
    if s.tip == Some(me.phase.commit) {
      assert TipTree(t) == TipTree(s);
      assert UsageOf(TipTree(s))[FileName(me.person)] == me.phase.file;
      SameTipCovers(TipTree(s));
    } else {
      assert TipTree(t) == PutFile(TipTree(s), FileName(me.person), me.phase.file);
      PutFileCovers(TipTree(s), me.person, me.phase.file);
    }
  }

  lemma SameTipCovers(t: Tree)
    ensures TipCovers(t, t)
  {
    forall person: string ensures Covers(DaysIn(t, person), DaysIn(t, person)) { CoversItself(DaysIn(t, person)); }
  }

  /** Only a push that is taken changes what is on the branch. */
  lemma OtherStepsKeepTip(s: State, found: Option<Tree>, step: Step)
    requires Inv(s, found) && !Lands(s, step)
    ensures RefsExist(Next(s, step)) && TipTree(Next(s, step)) == TipTree(s)
  {
    NextKeepsInv(s, found, step);
  }

  ghost predicate StepKeepsDays(ss: seq<State>, k: nat)
    requires k + 1 < |ss|
  {
    RefsExist(ss[k]) && RefsExist(ss[k + 1]) && TipCovers(TipTree(ss[k + 1]), TipTree(ss[k]))
  }

  ghost predicate StepCovers(s: State, step: Step) {
    RefsExist(s) && (Lands(s, step) ==> CoversTip(s, step))
  }

  /**
   Over any run, of any number of machines to a person, with reads that work or fail: a
   step loses a published day or some of its requests if and only if it is a push that
   is taken with a file that does not cover its person's days then on the branch.
   */
  lemma DayIsLostIff(ss: seq<State>, steps: seq<Step>, k: nat)
    requires Run(ss, steps) && k < |steps|
    ensures StepKeepsDays(ss, k) <==> StepCovers(ss[k], steps[k])
  {
    RunKeepsInv(ss, steps, k);
    RunKeepsInv(ss, steps, k + 1);
    if Lands(ss[k], steps[k]) {
      LandingKeepsDaysIff(ss[k], Found(ss[0]), steps[k]);
    } else {
      OtherStepsKeepTip(ss[k], Found(ss[0]), steps[k]);
      SameTipCovers(TipTree(ss[k]));
    }
  }

  // ---- When files always cover ----

  ghost predicate OnePerPerson(s: State) {
    forall a, b :: a in s.publishers && b in s.publishers && a != b ==> s.publishers[a].person != s.publishers[b].person
  }

  /** A run of the script has read its person's published copy, or already has all of it. */
  ghost predicate ReadsFirst(s: State, step: Step)
    requires RefsExist(s)
  {
    step.Begin? && step.who in s.publishers ==>
      var me := s.publishers[step.who];
      step.readOk || Covers(me.local, DaysIn(TipTree(s), me.person))
  }

  ghost predicate Ahead(s: State, me: Publisher)
    requires RefsExist(s)
  {
    !me.phase.Resting? ==> me.phase.file.LedgerFile? && Covers(me.phase.file.days, DaysIn(TipTree(s), me.person))
  }

  ghost predicate AllAhead(s: State)
    requires RefsExist(s)
  {
    OnePerPerson(s) && forall w <- s.publishers :: Ahead(s, s.publishers[w])
  }

  lemma PushedDays(s: State, found: Option<Tree>, who: nat, person: string)
    requires Inv(s, found) && who in s.publishers && s.publishers[who].phase.Built? && Ahead(s, s.publishers[who])
    ensures RefsExist(OnPush(s, who))
    ensures var me, t := s.publishers[who], OnPush(s, who);
            && (person != me.person ==> DaysIn(TipTree(t), person) == DaysIn(TipTree(s), person))
            && Covers(DaysIn(TipTree(t), person), DaysIn(TipTree(s), person))
  {
    var me, t := s.publishers[who], OnPush(s, who);
    PushedTip(s, found, who);
    PutFileDays(TipTree(s), me.person, me.phase.file, person);
    CoversItself(DaysIn(TipTree(s), person));
  }

  lemma PushTipCovers(s: State, found: Option<Tree>, who: nat)
    requires Inv(s, found) && AllAhead(s) && who in s.publishers && s.publishers[who].phase.Built?
    ensures RefsExist(OnPush(s, who)) && TipCovers(TipTree(OnPush(s, who)), TipTree(s))
  {
    PushedTip(s, found, who);
    assert Ahead(s, s.publishers[who]);
    forall person: string
      ensures Covers(DaysIn(TipTree(OnPush(s, who)), person), DaysIn(TipTree(s), person))
    {
      PushedDays(s, found, who, person);
    }
  }

  lemma PushKeepsPersons(s: State, who: nat)
    requires RefsExist(s) && OnePerPerson(s) && who in s.publishers && s.publishers[who].phase.Built?
    ensures OnPush(s, who).publishers.Keys == s.publishers.Keys && OnePerPerson(OnPush(s, who))
  {
    var t := OnPush(s, who);
    assert forall w <- s.publishers :: t.publishers[w].person == s.publishers[w].person;
  }

  lemma PushCovers(s: State, found: Option<Tree>, who: nat)
    requires Inv(s, found) && AllAhead(s) && who in s.publishers && s.publishers[who].phase.Built?
    ensures RefsExist(OnPush(s, who))
    ensures AllAhead(OnPush(s, who)) && TipCovers(TipTree(OnPush(s, who)), TipTree(s))
  {
    PushTipCovers(s, found, who);
    PushKeepsPersons(s, who);
    var t := OnPush(s, who);
    forall w | w in t.publishers ensures Ahead(t, t.publishers[w]) {
      PushedIsAhead(s, found, who, w);
    }
  }

  lemma PushedIsAhead(s: State, found: Option<Tree>, who: nat, w: nat)
    requires Inv(s, found) && AllAhead(s) && who in s.publishers && s.publishers[who].phase.Built? && w in s.publishers
    ensures RefsExist(OnPush(s, who)) && Ahead(OnPush(s, who), OnPush(s, who).publishers[w])
  {
    assert Ahead(s, s.publishers[w]) && Ahead(s, s.publishers[who]);
    if w == who {
      PushedOwnIsAhead(s, found, who);
    } else {
      PushedDays(s, found, who, s.publishers[w].person);
    }
  }

  lemma PushedOwnIsAhead(s: State, found: Option<Tree>, who: nat)
    requires Inv(s, found) && who in s.publishers && s.publishers[who].phase.Built? && Ahead(s, s.publishers[who])
    ensures RefsExist(OnPush(s, who)) && Ahead(OnPush(s, who), OnPush(s, who).publishers[who])
  {
    var me, t := s.publishers[who], OnPush(s, who);
    PushedTip(s, found, who);
    PutFileDays(TipTree(s), me.person, me.phase.file, me.person);
    CoversItself(DaysIn(TipTree(s), me.person));
    if me.phase.file.LedgerFile? { CoversItself(me.phase.file.days); }
  }

  /** A step that is not a push moves the branch nowhere, and gives no publisher a new file but at the start of a run. */
  lemma QuietStep(s: State, step: Step)
    requires RefsExist(s) && RefsExist(Next(s, step)) && !Pushing(s, step)
    ensures TipTree(Next(s, step)) == TipTree(s)
    ensures Next(s, step).publishers.Keys == s.publishers.Keys
    ensures forall w <- s.publishers ::
              var me, next := s.publishers[w], Next(s, step).publishers[w];
              && next.person == me.person
              && (next.phase.Resting? || next == me || (w == step.who && step.Begin? && me.phase.Resting? && next == OnBegin(s, step).publishers[w])
                  || (!me.phase.Resting? && next.phase.file == me.phase.file))
  {
  }

  lemma NextCovers(s: State, found: Option<Tree>, step: Step)
    requires Inv(s, found) && AllAhead(s) && ReadsFirst(s, step)
    ensures RefsExist(Next(s, step)) && AllAhead(Next(s, step)) && TipCovers(TipTree(Next(s, step)), TipTree(s))
  {
    NextKeepsInv(s, found, step);
    if Pushing(s, step) {
      PushCovers(s, found, step.who);
    } else {
      OtherStepCovers(s, step);
    }
  }

  lemma OtherStepCovers(s: State, step: Step)
    requires RefsExist(s) && RefsExist(Next(s, step)) && !Pushing(s, step)
    requires AllAhead(s) && ReadsFirst(s, step)
    ensures AllAhead(Next(s, step)) && TipCovers(TipTree(Next(s, step)), TipTree(s))
  {
    var t := Next(s, step);
    QuietStep(s, step);
    SameTipCovers(TipTree(s));
    if step.Begin? && step.who in s.publishers { BeginIsAhead(s, step); }
    forall w | w in t.publishers ensures Ahead(t, t.publishers[w]) {
      assert Ahead(s, s.publishers[w]);
    }
  }

  lemma BeginIsAhead(s: State, step: Step)
    requires RefsExist(s) && step.Begin? && step.who in s.publishers && ReadsFirst(s, step)
    ensures var me, next := s.publishers[step.who], OnBegin(s, step).publishers[step.who];
            next.phase.Trying? ==> next.phase.file.LedgerFile? && Covers(next.phase.file.days, DaysIn(TipTree(s), me.person))
  {
    var me := s.publishers[step.who];
    var published := DaysIn(TipTree(s), me.person);
    UpdatedCovers(me.local, if step.readOk then published else map[], step.scanned);
    if !step.readOk {
      CoversTrans(Updated(me.local, map[], step.scanned), me.local, published);
    }
  }

  lemma {:induction false} RunIsAhead(ss: seq<State>, steps: seq<Step>, i: nat)
    requires Run(ss, steps) && i < |ss| && OnePerPerson(ss[0])
    requires forall k :: 0 <= k < |steps| ==> ReadsFirst(ss[k], steps[k])
    ensures RefsExist(ss[i]) && AllAhead(ss[i])
  {
    if i == 0 {
      InitialRefs(ss[0]);
    } else {
      RunIsAhead(ss, steps, i - 1);
      RunKeepsInv(ss, steps, i - 1);
      NextCovers(ss[i - 1], Found(ss[0]), steps[i - 1]);
    }
  }

  /**
   With one machine to a person, each reading the published copy before its first
   push, no day a person has published ever leaves the branch and no day's request
   count ever goes down, however the pushes interleave.
   */
  lemma {:induction false} NothingPublishedIsLost(ss: seq<State>, steps: seq<Step>, i: nat, j: nat, person: string)
    requires Run(ss, steps) && i <= j < |ss| && OnePerPerson(ss[0])
    requires forall k :: 0 <= k < |steps| ==> ReadsFirst(ss[k], steps[k])
    ensures RefsExist(ss[i]) && RefsExist(ss[j])
    ensures Covers(DaysIn(TipTree(ss[j]), person), DaysIn(TipTree(ss[i]), person))
    decreases j
  {
    RunIsAhead(ss, steps, i);
    if i == j {
      CoversItself(DaysIn(TipTree(ss[i]), person));
    } else {
      NothingPublishedIsLost(ss, steps, i, j - 1, person);
      RunIsAhead(ss, steps, j - 1);
      RunKeepsInv(ss, steps, j - 1);
      NextCovers(ss[j - 1], Found(ss[0]), steps[j - 1]);
      CoversTrans(DaysIn(TipTree(ss[j]), person), DaysIn(TipTree(ss[j - 1]), person), DaysIn(TipTree(ss[i]), person));
    }
  }

  lemma {:induction false} RunFrom(s: State, steps: seq<Step>) returns (ss: seq<State>)
    requires Initial(s)
    ensures Run(ss, steps) && ss[0] == s
  {
    if steps == [] {
      ss := [s];
    } else {
      var n := |steps| - 1;
      var init := RunFrom(s, steps[..n]);
      RunKeepsInv(init, steps[..n], n);
      ss := init + [Next(init[n], steps[n])];
    }
  }

  lemma FetchThenBuild(s: State, found: Option<Tree>, who: nat) returns (s1: State, s2: State)
    requires Inv(s, found) && who in s.publishers && s.publishers[who].phase.Trying?
    requires s.tip.Some? ==> HasUsageDir(TipTree(s))
    requires s.tip.Some? ==> PutFile(TipTree(s), FileName(s.publishers[who].person), s.publishers[who].phase.file) != TipTree(s)
    ensures s1 == Next(s, Fetch(who, true)) && Inv(s1, found) && s2 == Next(s1, Build(who)) && Inv(s2, found)
    ensures var me, n := s.publishers[who], |s.commits|;
            && s2.tip == s.tip && |s2.commits| == n + 1 && s2.commits[n].parent == s.tip
            && s2.commits[n].tree == PutFile(TipTree(s), FileName(me.person), me.phase.file)
            && s2.publishers == s.publishers[who := me.(phase := Built(me.phase.file, me.phase.left, n))]
  {
    NextKeepsInv(s, found, Fetch(who, true));
    s1 := Next(s, Fetch(who, true));
    NextKeepsInv(s1, found, Build(who));
    s2 := Next(s1, Build(who));
  }

  /** A publisher nobody else moves in between gets its file onto the branch, as the one change made there. */
  lemma UninterruptedPublishLands(s: State, found: Option<Tree>, who: nat) returns (s1: State, s2: State, s3: State)
    requires Inv(s, found) && who in s.publishers && s.publishers[who].phase.Trying?
    requires s.tip.Some? ==> HasUsageDir(TipTree(s))
    requires s.tip.Some? ==> PutFile(TipTree(s), FileName(s.publishers[who].person), s.publishers[who].phase.file) != TipTree(s)
    ensures s1 == Next(s, Fetch(who, true)) && Inv(s1, found) && s2 == Next(s1, Build(who)) && Inv(s2, found)
    ensures s3 == Next(s2, Push(who)) && Inv(s3, found) && s3.tip.Some?
    ensures var me := s.publishers[who];
            && TipTree(s3) == PutFile(TipTree(s), FileName(me.person), me.phase.file)
            && s3.publishers == s.publishers[who := me.(phase := Resting)]
            && s3.published == s.published[me.person := me.phase.file]
  {
    s1, s2 := FetchThenBuild(s, found, who);
    NextKeepsInv(s2, found, Push(who));
    s3 := Next(s2, Push(who));
    FastForwardIsParentTip(s2, found, who);
  }

  lemma BothBegin(s0: State, s1: State, s2: State, monday: Days, tuesday: Days)
    requires s0 == State([], None, map[0 := Publisher("p", map[], Resting), 1 := Publisher("p", map[], Resting)], map[])
    requires RefsExist(s0) && s1 == Next(s0, Begin(0, monday, true, "t", true))
    requires RefsExist(s1) && s2 == Next(s1, Begin(1, tuesday, true, "t", true))
    ensures s2.tip == None && {0, 1} <= s2.publishers.Keys
    ensures s2.publishers[0] == Publisher("p", Updated(map[], map[], monday), Trying(LedgerFile(Updated(map[], map[], monday), "t"), 3))
    ensures s2.publishers[1] == Publisher("p", Updated(map[], map[], tuesday), Trying(LedgerFile(Updated(map[], map[], tuesday), "t"), 3))
  {
    assert DaysIn(map[], "p") == map[];
  }

  /**
   One machine, nobody else publishing: when the published copy could not be read but the
   push works, days are lost if and only if the local ledger and the scan do not have them.
   */
  lemma UnreadPublishLosesIff(s: State, found: Option<Tree>, who: nat, scanned: Days, updated: string)
      returns (s1: State, s2: State, s3: State, s4: State)
    requires Inv(s, found) && who in s.publishers && s.publishers[who].phase.Resting?
    requires s.tip.Some? && HasUsageDir(TipTree(s))
    requires PutFile(TipTree(s), FileName(s.publishers[who].person), LedgerFile(Updated(s.publishers[who].local, map[], scanned), updated)) != TipTree(s)
    ensures s1 == Next(s, Begin(who, scanned, false, updated, true)) && Inv(s1, found)
    ensures s2 == Next(s1, Fetch(who, true)) && RefsExist(s2)
    ensures s3 == Next(s2, Build(who)) && RefsExist(s3)
    ensures s4 == Next(s3, Push(who)) && Inv(s4, found)
    ensures TipCovers(TipTree(s4), TipTree(s)) <==>
              Covers(Updated(s.publishers[who].local, map[], scanned), DaysIn(TipTree(s), s.publishers[who].person))
    ensures DaysIn(TipTree(s4), s.publishers[who].person) == Updated(s.publishers[who].local, map[], scanned)
  {
    var me := s.publishers[who];
    var file := LedgerFile(Updated(me.local, map[], scanned), updated);
    NextKeepsInv(s, found, Begin(who, scanned, false, updated, true));
    s1 := Next(s, Begin(who, scanned, false, updated, true));
    assert s1.publishers[who] == Publisher(me.person, file.days, Trying(file, ATTEMPTS));
    s2, s3, s4 := UninterruptedPublishLands(s1, found, who);
    PutFileCovers(TipTree(s), me.person, file);
    PutFileDays(TipTree(s), me.person, file, me.person);
  }

  function OneMachine(): State {
    State([Commit(None, PutFile(map[], FileName("p"), LedgerFile(map["monday" := map["m" := NO_USE]], "t")))], Some(0),
          map[0 := Publisher("p", map[], Resting)], map[])
  }

  lemma FreshMachine()
    ensures RefsExist(OneMachine()) && "monday" in DaysIn(TipTree(OneMachine()), "p") && HasUsageDir(TipTree(OneMachine()))
  {
    PutFileDays(map[], "p", LedgerFile(map["monday" := map["m" := NO_USE]], "t"), "p");
  }

  lemma TuesdayAlone(tuesday: Days)
    requires tuesday.Keys == {"tuesday"}
    ensures "monday" !in Updated(map[], map[], tuesday)
    ensures PutFile(TipTree(OneMachine()), FileName("p"), LedgerFile(Updated(map[], map[], tuesday), "t")) != TipTree(OneMachine())
  {
    UpdatedLacks("monday", tuesday);
    FreshMachine();
    PutFileDays(TipTree(OneMachine()), "p", LedgerFile(Updated(map[], map[], tuesday), "t"), "p");
  }

  lemma LostWhenUnread(ss: seq<State>, steps: seq<Step>, tuesday: Days)
    requires Run(ss, steps) && ss[0] == OneMachine() && tuesday.Keys == {"tuesday"}
    requires steps == [Begin(0, tuesday, false, "t", true), Fetch(0, true), Build(0), Push(0)]
    ensures RefsExist(ss[4]) && "monday" !in DaysIn(TipTree(ss[4]), "p")
  {
    FreshMachine();
    TuesdayAlone(tuesday);
    RunKeepsInv(ss, steps, 0);
    var s1, s2, s3, s4 := UnreadPublishLosesIff(ss[0], Found(ss[0]), 0, tuesday, "t");
    StepOf(ss, steps, 0, ss[0]);
    StepOf(ss, steps, 1, s1);
    StepOf(ss, steps, 2, s2);
    StepOf(ss, steps, 3, s3);
  }

  /** A fresh machine, alone, whose read of the published copy fails and whose push works, loses the day that was published. */
  lemma FailedReadLosesADay() returns (ss: seq<State>, steps: seq<Step>)
    ensures Run(ss, steps) && OnePerPerson(ss[0]) && |steps| == 4 && RefsExist(ss[0]) && RefsExist(ss[4])
    ensures "monday" in DaysIn(TipTree(ss[0]), "p") && "monday" !in DaysIn(TipTree(ss[4]), "p")
  {
    var tuesday: Days := map["tuesday" := map["m" := NO_USE]];
    steps := [Begin(0, tuesday, false, "t", true), Fetch(0, true), Build(0), Push(0)];
    ss := RunFrom(OneMachine(), steps);
    FreshMachine();
    LostWhenUnread(ss, steps, tuesday);
  }

  lemma StepOf(ss: seq<State>, steps: seq<Step>, i: nat, s: State)
    requires Run(ss, steps) && i < |steps| && ss[i] == s
    ensures RefsExist(s) && ss[i + 1] == Next(s, steps[i])
  {
  }

  function Race(monday: Days, tuesday: Days): seq<Step> {
    [Begin(0, monday, true, "t", true), Begin(1, tuesday, true, "t", true),
     Fetch(0, true), Build(0), Push(0), Fetch(1, true), Build(1), Push(1)]
  }

  function TwoMachines(): State {
    State([], None, map[0 := Publisher("p", map[], Resting), 1 := Publisher("p", map[], Resting)], map[])
  }

  lemma RaceLosesMonday(ss: seq<State>, monday: Days, tuesday: Days)
    requires Run(ss, Race(monday, tuesday)) && ss[0] == TwoMachines()
    requires "monday" in monday && "monday" !in tuesday
    ensures RefsExist(ss[5]) && RefsExist(ss[8])
    ensures "monday" in DaysIn(TipTree(ss[5]), "p") && "monday" !in DaysIn(TipTree(ss[8]), "p")
  {
    var steps := Race(monday, tuesday);
    BothBegin(ss[0], ss[1], ss[2], monday, tuesday);
    UpdatedLacks("monday", tuesday);
    UpdatedCovers(map[], map[], monday);
    assert ss[2].publishers[0].phase.file.days == Updated(map[], map[], monday);
    SecondPushReplaces(ss, steps, Updated(map[], map[], tuesday));
  }

  /** Two machines of one person lose a day, even though both read the published copy before they began. */
  lemma TwoMachinesLoseADay() returns (ss: seq<State>, steps: seq<Step>, i: nat, j: nat)
    ensures Run(ss, steps) && forall k :: 0 <= k < |steps| ==> ReadsFirst(ss[k], steps[k])
    ensures i < j < |ss| && RefsExist(ss[i]) && RefsExist(ss[j])
    ensures !Covers(DaysIn(TipTree(ss[j]), "p"), DaysIn(TipTree(ss[i]), "p"))
  {
    var monday: Days := map["monday" := map["m" := NO_USE]];
    var tuesday: Days := map["tuesday" := map["m" := NO_USE]];
    steps := Race(monday, tuesday);
    ss := RunFrom(TwoMachines(), steps);
    i, j := 5, 8;
    RaceLosesMonday(ss, monday, tuesday);
  }

  lemma UpdatedLacks(day: string, scanned: Days)
    requires day !in scanned
    ensures day !in Updated(map[], map[], scanned)
  {
    MergeCoversBoth(map[], map[]);
    MergeCoversBoth(MergeOf(map[], map[]), scanned);
  }

  /** Publishing undisturbed puts the person's days on the branch. */
  lemma PublishSetsDays(s: State, found: Option<Tree>, who: nat) returns (s1: State, s2: State, s3: State)
    requires Inv(s, found) && who in s.publishers && s.publishers[who].phase.Trying? && s.publishers[who].phase.file.LedgerFile?
    requires s.tip.Some? ==> HasUsageDir(TipTree(s))
    requires s.tip.Some? ==> DaysIn(TipTree(s), s.publishers[who].person) != s.publishers[who].phase.file.days
    ensures s1 == Next(s, Fetch(who, true)) && Inv(s1, found) && s2 == Next(s1, Build(who)) && Inv(s2, found)
    ensures s3 == Next(s2, Push(who)) && Inv(s3, found) && s3.tip.Some? && HasUsageDir(TipTree(s3))
    ensures var me := s.publishers[who];
            && DaysIn(TipTree(s3), me.person) == me.phase.file.days
            && s3.publishers == s.publishers[who := me.(phase := Resting)]
  {
    var me := s.publishers[who];
    PutFileDays(TipTree(s), me.person, me.phase.file, me.person);
    s1, s2, s3 := UninterruptedPublishLands(s, found, who);
  }

  lemma SecondPushReplaces(ss: seq<State>, steps: seq<Step>, days: Days)
    requires Run(ss, steps) && |steps| == 8 && Found(ss[0]) == None
    requires steps[2..] == [Fetch(0, true), Build(0), Push(0), Fetch(1, true), Build(1), Push(1)]
    requires ss[2].tip == None && {0, 1} <= ss[2].publishers.Keys
    requires ss[2].publishers[0].person == "p" && ss[2].publishers[1].person == "p"
    requires ss[2].publishers[0].phase.Trying? && ss[2].publishers[0].phase.file.LedgerFile?
    requires ss[2].publishers[1].phase == Trying(LedgerFile(days, "t"), 3)
    requires ss[2].publishers[0].phase.file.days != days
    ensures RefsExist(ss[5]) && RefsExist(ss[8])
    ensures DaysIn(TipTree(ss[5]), "p") == ss[2].publishers[0].phase.file.days && DaysIn(TipTree(ss[8]), "p") == days
  {
    assert steps[2] == Fetch(0, true) && steps[3] == Build(0) && steps[4] == Push(0);
    assert steps[5] == Fetch(1, true) && steps[6] == Build(1) && steps[7] == Push(1);
    RunKeepsInv(ss, steps, 2);
    var a1, a2, a3 := PublishSetsDays(ss[2], None, 0);
    assert ss[3] == a1 && ss[4] == a2 && ss[5] == a3;
    var b1, b2, b3 := PublishSetsDays(ss[5], None, 1);
    assert ss[6] == b1 && ss[7] == b2 && ss[8] == b3;
  }

  // ---- Starting, and trying again ----

  /** A run of the script writes what it merged to the local ledger and, told to publish, sets out to push that with three attempts. */
  lemma BeginSetsOut(s: State, step: Step)
    requires RefsExist(s) && step.Begin? && step.who in s.publishers && s.publishers[step.who].phase.Resting?
    ensures var me, next := s.publishers[step.who], Next(s, step);
            && step.who in next.publishers
            && var now := next.publishers[step.who];
               && now.person == me.person && Covers(now.local, me.local) && Covers(now.local, step.scanned)
               && (step.readOk ==> Covers(now.local, DaysIn(TipTree(s), me.person)))
               && now.phase == (if step.publish then Trying(LedgerFile(now.local, step.updated), 3) else Resting)
               && next.tip == s.tip && next.commits == s.commits && next.published == s.published
  {
    var me := s.publishers[step.who];
    UpdatedCovers(me.local, if step.readOk then DaysIn(TipTree(s), me.person) else map[], step.scanned);
  }

  /**
   A refused push with an attempt left is tried again with the same file on the tip that beat
   it, and undisturbed it lands there as the one change; with none left the publisher gives
   up, and the branch is as it was.
   */
  lemma RefusedPushIsRetried(s: State, found: Option<Tree>, who: nat) returns (s1: State, s4: State)
    requires Inv(s, found) && who in s.publishers && s.publishers[who].phase.Built?
    requires PhaseRefsExist(s, s.publishers[who].phase) && !FastForward(s, s.publishers[who].phase.commit)
    requires HasUsageDir(TipTree(s))
    requires PutFile(TipTree(s), FileName(s.publishers[who].person), s.publishers[who].phase.file) != TipTree(s)
    ensures s1 == Next(s, Push(who)) && s1.tip == s.tip && s1.published == s.published && Inv(s1, found)
    ensures var me := s.publishers[who];
            && (me.phase.left <= 1 ==> s1.publishers[who].phase == Resting && s4 == s1)
            && (me.phase.left > 1 ==>
                  && s1.publishers[who].phase == Trying(me.phase.file, me.phase.left - 1)
                  && Inv(s4, found) && TipTree(s4) == PutFile(TipTree(s), FileName(me.person), me.phase.file)
                  && s4.published == s.published[me.person := me.phase.file])
  {
    NextKeepsInv(s, found, Push(who));
    s1 := Next(s, Push(who));
    s4 := s1;
    if s.publishers[who].phase.left > 1 {
      var a, b, c := UninterruptedPublishLands(s1, found, who);
      s4 := c;
    }
  }
}
