/**
 * The pure rules of the release workflow: the order of the release steps,
 * the `release-` branch prefix, the gate on creating a release branch, the
 * version a crate is released at, the per-crate manifest and changelog
 * decisions, the `cargo publish` arguments and error report, and the
 * post-release development version.
 *
 * Semantic versions are abstract: `VersionOps` supplies the comparison, the
 * patch increment, the prerelease test, the `-dev.0` suffix and the
 * rendering the code uses, and nothing else about them is assumed.
 * Git, cargo and the file system become parameters or small classes.
 */
module Release {
  import opened Wrappers

  // ------------------------------------------------------------ steps

  /** The release workflow's steps, in declaration order. */
  datatype ReleaseSteps =
    | CreateReleaseBranch
    | BumpReleaseVersions
    | PushForPrToMain
    | CreatePrToMain
    | VerifyMainBranch
    | PublishToCratesIo
    | PushReleaseTag
    | BumpPostReleaseVersions
    | PushForDevelopPr
    | CreatePrToDevelop

  /** The position of a step in the declaration, which the derived `Ord` compares. */
  function Rank(s: ReleaseSteps): (r: nat)
    ensures r < 10
  {
    match s
    case CreateReleaseBranch => 0
    case BumpReleaseVersions => 1
    case PushForPrToMain => 2
    case CreatePrToMain => 3
    case VerifyMainBranch => 4
    case PublishToCratesIo => 5
    case PushReleaseTag => 6
    case BumpPostReleaseVersions => 7
    case PushForDevelopPr => 8
    case CreatePrToDevelop => 9
  }

  /** `a < b` in the derived ordering. */
  predicate Before(a: ReleaseSteps, b: ReleaseSteps) {
    Rank(a) < Rank(b)
  }

  /** The derived ordering is a strict total order: exactly one of `a < b`, `a == b`, `b < a` holds. */
  lemma StepsTotallyOrdered(a: ReleaseSteps, b: ReleaseSteps, c: ReleaseSteps)
    ensures (Before(a, b) && !Before(b, a) && a != b) || (a == b && !Before(a, b)) || (Before(b, a) && !Before(a, b) && a != b)
    ensures Before(a, b) && Before(b, c) ==> Before(a, c)
  {
  }

  /** Every step, in declaration order. */
  function AllSteps(): (r: seq<ReleaseSteps>)
    ensures |r| == 10
    ensures forall s :: Rank(s) < |r| && r[Rank(s)] == s
    ensures forall s :: s in r
    ensures forall i :: 0 <= i < |r| ==> Rank(r[i]) == i
  {
    var r := [CreateReleaseBranch, BumpReleaseVersions, PushForPrToMain, CreatePrToMain, VerifyMainBranch,
              PublishToCratesIo, PushReleaseTag, BumpPostReleaseVersions, PushForDevelopPr, CreatePrToDevelop];
    assert forall s :: s in r by {
      forall s ensures s in r {
        assert r[Rank(s)] == s;
      }
    }
    r
  }

  predicate Ascending(xs: seq<ReleaseSteps>) {
    forall i, j :: 0 <= i < j < |xs| ==> Rank(xs[i]) < Rank(xs[j])
  }

  /** The members of `keep`, in the order they appear in `xs`. */
  function KeepInOrder(xs: seq<ReleaseSteps>, keep: set<ReleaseSteps>): (r: seq<ReleaseSteps>)
    ensures forall s :: s in r <==> s in xs && s in keep
    ensures Ascending(xs) ==> Ascending(r)
    ensures |r| <= |xs|
  {
    if xs == [] then []
    else
      var rest := KeepInOrder(xs[1..], keep);
      assert forall s :: s in xs[1..] ==> s in xs;
      if xs[0] in keep then
        assert Ascending(xs) ==> forall j :: 0 <= j < |rest| ==> Rank(xs[0]) < Rank(rest[j]) by {
          if Ascending(xs) {
            forall j | 0 <= j < |rest| ensures Rank(xs[0]) < Rank(rest[j]) {
              assert rest[j] in rest;
              var k :| 0 <= k < |xs[1..]| && xs[1..][k] == rest[j];
              assert xs[k + 1] == rest[j];
            }
          }
        }
        [xs[0]] + rest
      else rest
  }

  /** Iterating a `BTreeSet` of steps: each once, in declaration order. */
  function InOrder(steps: set<ReleaseSteps>): (r: seq<ReleaseSteps>)
    ensures forall s :: s in r <==> s in steps
    ensures Ascending(r)
    ensures |r| == |steps|
  {
    var all := AllSteps();
    assert Ascending(all);
    var r := KeepInOrder(all, steps);
    assert forall s :: s in r <==> s in steps;
    AscendingIsDistinct(r);
    DistinctSize(r, steps);
    r
  }

  lemma AscendingIsDistinct(xs: seq<ReleaseSteps>)
    requires Ascending(xs)
    ensures forall i, j :: 0 <= i < j < |xs| ==> xs[i] != xs[j]
  {
  }

  /** A duplicate-free sequence has as many elements as the set of its elements. */
  lemma {:induction false} DistinctSize<T>(xs: seq<T>, s: set<T>)
    requires forall i, j :: 0 <= i < j < |xs| ==> xs[i] != xs[j]
    requires forall x :: x in xs <==> x in s
    ensures |xs| == |s|
    decreases |xs|
  {
    if xs != [] {
      var last := xs[|xs| - 1];
      var init := xs[..|xs| - 1];
      assert forall x :: x in init <==> x in s - {last} by {
        forall x ensures x in init <==> x in s - {last} {
          if x in init {
            var i :| 0 <= i < |init| && init[i] == x;
            assert xs[i] == x;
          }
          if x in s - {last} {
            var i :| 0 <= i < |xs| && xs[i] == x;
            assert i != |xs| - 1;
            assert init[i] == x;
          }
        }
      }
      DistinctSize(init, s - {last});
    }
  }

  /**
   * `cmd`: the selected steps run one after another in declaration order,
   * and the first failing step ends the command with its error.  `runStep`
   * stands for reading the workspace and performing one step.
   */
  method Cmd(steps: set<ReleaseSteps>, runStep: ReleaseSteps -> Result<(), ReleaseError>)
    returns (r: Result<(), ReleaseError>, processed: seq<ReleaseSteps>)
    ensures |processed| <= |steps| && processed == InOrder(steps)[..|processed|]
    ensures forall i :: 0 <= i < |processed| - 1 ==> runStep(processed[i]).Ok?
    ensures r.Ok? <==> processed == InOrder(steps) && forall s :: s in steps ==> runStep(s).Ok?
    ensures r.Err? ==> processed != [] && runStep(processed[|processed| - 1]) == Err(r.error)
  {
    var ordered := InOrder(steps);
    processed := [];
    for i := 0 to |ordered|
      invariant processed == ordered[..i]
      invariant forall j :: 0 <= j < i ==> runStep(ordered[j]).Ok?
    {
      processed := processed + [ordered[i]];
      var outcome := runStep(ordered[i]);
      if outcome.Err? {
        return Err(outcome.error), processed;
      }
    }
    assert processed == ordered;
    return Ok(()), processed;
  }

  // ------------------------------------------------------------ errors

  datatype ReleaseError =
    | GitError(message: string)
    | NotOnDevelop(found: string)
    | RepositoryNotClean(changes: nat)
    | MissingReleasePrefix(branch: string)
    | NoWorkspaceReleaseName(branch: string)
    | PreviousReleaseGreater(crateName: string)
    | ProcessFailed(message: string)
    | PublishFailed(report: string)

  // ---------------------------------------------------- release branches

  const ReleaseBranchPrefix: string := "release-"
  const DevelopBranch: string := "develop"

  predicate StartsWith(s: string, prefix: string) {
    |prefix| <= |s| && s[..|prefix|] == prefix
  }

  predicate OccursAt(s: string, part: string, k: int) {
    0 <= k <= |s| - |part| && s[k..k + |part|] == part
  }

  /** Whether `part` occurs in `s` as a contiguous substring. */
  predicate Contains(s: string, part: string) {
    exists k | 0 <= k <= |s| - |part| :: OccursAt(s, part, k)
  }

  /** `str::strip_prefix`. */
  function StripPrefix(s: string, prefix: string): (r: Option<string>)
    ensures r.Some? <==> StartsWith(s, prefix)
    ensures r.Some? ==> prefix + r.value == s
  {
    if StartsWith(s, prefix) then Some(s[|prefix|..]) else None
  }

  lemma StripPrefixOfConcat(prefix: string, rest: string)
    ensures StripPrefix(prefix + rest, prefix) == Some(rest)
  {
    assert (prefix + rest)[..|prefix|] == prefix;
    assert (prefix + rest)[|prefix|..] == rest;
  }

  /** `generate_release_branch_name`, with the formatted UTC time as a parameter. */
  function GenerateReleaseBranchName(formattedNow: string): (r: string)
    ensures StartsWith(r, ReleaseBranchPrefix)
    ensures StripPrefix(r, ReleaseBranchPrefix) == Some(formattedNow)
  {
    StripPrefixOfConcat(ReleaseBranchPrefix, formattedNow);
    ReleaseBranchPrefix + formattedNow
  }

  /** `ensure_release_branch` on the head branch name (or the error reading it). */
  function EnsureReleaseBranch(head: Result<string, ReleaseError>): (r: Result<string, ReleaseError>)
    ensures head.Err? ==> r == head
    ensures head.Ok? ==> (r.Ok? <==> StartsWith(head.value, ReleaseBranchPrefix))
    ensures r.Ok? ==> r == head
    ensures head.Ok? && r.Err? ==> r.error == MissingReleasePrefix(head.value)
  {
    if head.Err? then head
    else if StartsWith(head.value, ReleaseBranchPrefix) then head
    else Err(MissingReleasePrefix(head.value))
  }

  /** The workspace release name: the branch name without the `release-` prefix. */
  function WorkspaceReleaseName(branch: string): (r: Result<string, ReleaseError>)
    ensures r.Ok? <==> StartsWith(branch, ReleaseBranchPrefix)
    ensures r.Ok? ==> ReleaseBranchPrefix + r.value == branch
    ensures r.Err? ==> r.error == NoWorkspaceReleaseName(branch)
  {
    match StripPrefix(branch, ReleaseBranchPrefix)
    case Some(name) => Ok(name)
    case None => Err(NoWorkspaceReleaseName(branch))
  }

  /**
   * The branch `bump_release_versions` and `post_release_bump_versions` work
   * on: the checked head branch, or in a dry run a freshly generated name
   * when the check fails.
   */
  function ReleaseBranchForStep(head: Result<string, ReleaseError>, dryRun: bool, formattedNow: string)
    : (r: Result<string, ReleaseError>)
    ensures r.Err? <==> !dryRun && EnsureReleaseBranch(head).Err?
    ensures r.Ok? && EnsureReleaseBranch(head).Ok? ==> r == EnsureReleaseBranch(head)
    ensures r.Ok? && EnsureReleaseBranch(head).Err? ==> r.value == GenerateReleaseBranchName(formattedNow)
  {
    match EnsureReleaseBranch(head)
    case Ok(branch) => Ok(branch)
    case Err(e) => if dryRun then Ok(GenerateReleaseBranchName(formattedNow)) else Err(e)
  }

  /** The prefix strip in `bump_release_versions` cannot fail on the branch it is given. */
  lemma ReleaseBranchAlwaysNamesARelease(head: Result<string, ReleaseError>, dryRun: bool, formattedNow: string)
    requires ReleaseBranchForStep(head, dryRun, formattedNow).Ok?
    ensures WorkspaceReleaseName(ReleaseBranchForStep(head, dryRun, formattedNow).value).Ok?
    ensures EnsureReleaseBranch(head).Ok? ==>
      ReleaseBranchPrefix + WorkspaceReleaseName(ReleaseBranchForStep(head, dryRun, formattedNow).value).value
        == head.value
  {
  }

  /**
   * The checks `create_release_branch` makes before creating anything: the
   * head must be `develop` and the repository clean, unless creation is forced.
   */
  function ReleaseBranchGate(head: string, changes: nat, force: bool): (r: Result<(), ReleaseError>)
    ensures r.Ok? <==> force || (head == DevelopBranch && changes == 0)
    ensures r.Err? && head != DevelopBranch ==> r.error == NotOnDevelop(head)
    ensures r.Err? && head == DevelopBranch ==> r.error == RepositoryNotClean(changes)
  {
    if head != DevelopBranch && !force then Err(NotOnDevelop(head))
    else if changes > 0 && !force then Err(RepositoryNotClean(changes))
    else Ok(())
  }

  /** The git repository of the workspace, as far as branch creation sees it. */
  class Repo {
    var head: string
    var branches: set<string>
    /** The number of entries `git status` reports, untracked files included. */
    var changes: nat

    constructor (head: string, changes: nat)
      ensures this.head == head && this.changes == changes && branches == {head}
    {
      this.head := head;
      this.changes := changes;
      branches := {head};
    }

    method CheckoutNewBranch(name: string)
      modifies this
      ensures head == name && branches == old(branches) + {name} && changes == old(changes)
    {
      head := name;
      branches := branches + {name};
    }
  }

  /**
   * `create_release_branch`: after the gate, the branch is the given name or
   * a generated one; a dry run stops there, otherwise the branch is created
   * and checked out, and the new head must carry the `release-` prefix.
   */
  method CreateReleaseBranchIn(repo: Repo, releaseBranchName: Option<string>, force: bool, dryRun: bool,
                               formattedNow: string)
    returns (r: Result<(), ReleaseError>)
    modifies repo
    ensures var name := if releaseBranchName.Some? then releaseBranchName.value
                        else GenerateReleaseBranchName(formattedNow);
      && (ReleaseBranchGate(old(repo.head), old(repo.changes), force).Err? ==>
            r == ReleaseBranchGate(old(repo.head), old(repo.changes), force) &&
            repo.head == old(repo.head) && repo.branches == old(repo.branches))
      && (ReleaseBranchGate(old(repo.head), old(repo.changes), force).Ok? && dryRun ==>
            r.Ok? && repo.head == old(repo.head) && repo.branches == old(repo.branches))
      && (ReleaseBranchGate(old(repo.head), old(repo.changes), force).Ok? && !dryRun ==>
            repo.head == name && repo.branches == old(repo.branches) + {name} &&
            r == (if StartsWith(name, ReleaseBranchPrefix) then Ok(()) else Err(MissingReleasePrefix(name))))
    ensures repo.changes == old(repo.changes)
  {
    var gate := ReleaseBranchGate(repo.head, repo.changes, force);
    if gate.Err? {
      return gate;
    }
    var name := if releaseBranchName.Some? then releaseBranchName.value
                else GenerateReleaseBranchName(formattedNow);
    if dryRun {
      return Ok(());
    }
    repo.CheckoutNewBranch(name);
    var checked := EnsureReleaseBranch(Ok(repo.head));
    if checked.Err? {
      return Err(checked.error);
    }
    return Ok(());
  }

  /** Without a forced creation, a release branch can only come from a clean `develop`. */
  lemma UnforcedReleaseBranchNeedsCleanDevelop(head: string, changes: nat)
    requires ReleaseBranchGate(head, changes, false).Ok?
    ensures head == DevelopBranch && changes == 0
  {
  }

  // ---------------------------------------------------------- versions

  /** The semantic-version operations the release rules use. */
  datatype VersionOps<!V> = VersionOps(
    greater: (V, V) -> bool,
    incrementPatch: V -> V,
    isPrerelease: V -> bool,
    withDevSuffix: V -> V,
    render: V -> string)

  /** The version ordering is a strict order, as semver's is. */
  ghost predicate StrictOrder<V(!new)>(ops: VersionOps<V>) {
    forall v :: !ops.greater(v, v)
  }

  /**
   * The version a crate is released at: one patch above the documented
   * previous release (which must not exceed the current version), or with no
   * previous release the current version, bumped by a patch if it is a
   * prerelease.
   */
  function ReleaseVersion<V>(ops: VersionOps<V>, name: string, current: V, previous: Option<V>)
    : (r: Result<V, ReleaseError>)
    ensures r.Err? <==> previous.Some? && ops.greater(previous.value, current)
    ensures r.Err? ==> r.error == PreviousReleaseGreater(name)
    ensures r.Ok? && previous.Some? ==> r.value == ops.incrementPatch(previous.value)
    ensures r.Ok? && previous.None? ==>
      r.value == if ops.isPrerelease(current) then ops.incrementPatch(current) else current
  {
    match previous
    case Some(p) => if ops.greater(p, current) then Err(PreviousReleaseGreater(name)) else Ok(ops.incrementPatch(p))
    case None => Ok(if ops.isPrerelease(current) then ops.incrementPatch(current) else current)
  }

  /** What releasing one crate does: its release version, and whether its manifest and changelog change. */
  datatype CrateRelease<V> = CrateRelease(name: string, version: V, rewriteManifest: bool, addHeading: bool)

  datatype Crate<V> = Crate(name: string, version: V, previousRelease: Option<V>)

  /**
   * The manifest is rewritten only for a release strictly above the current
   * version; a changelog heading is added for it, and for a crate released
   * for the first time.
   */
  function PlanCrate<V>(ops: VersionOps<V>, c: Crate<V>): (r: Result<CrateRelease<V>, ReleaseError>)
    ensures r.Err? <==> ReleaseVersion(ops, c.name, c.version, c.previousRelease).Err?
    ensures r.Ok? ==>
      && r.value.name == c.name
      && r.value.version == ReleaseVersion(ops, c.name, c.version, c.previousRelease).value
      && (r.value.rewriteManifest <==> ops.greater(r.value.version, c.version))
      && (r.value.addHeading <==> c.previousRelease.None? || r.value.rewriteManifest)
  {
    match ReleaseVersion(ops, c.name, c.version, c.previousRelease)
    case Err(e) => Err(e)
    case Ok(v) =>
      var greater := ops.greater(v, c.version);
      Ok(CrateRelease(c.name, v, greater, c.previousRelease.None? || greater))
  }

  /**
   * A crate released for the first time at a non-prerelease version keeps its
   * manifest and only gains a changelog heading.
   */
  lemma FirstStableReleaseOnlyAddsHeading<V(!new)>(ops: VersionOps<V>, c: Crate<V>)
    requires StrictOrder(ops)
    requires c.previousRelease.None? && !ops.isPrerelease(c.version)
    ensures PlanCrate(ops, c).Ok?
    ensures PlanCrate(ops, c).value.version == c.version
    ensures !PlanCrate(ops, c).value.rewriteManifest && PlanCrate(ops, c).value.addHeading
  {
  }

  /** Every rewritten manifest comes with a changelog heading. */
  lemma RewriteImpliesHeading<V>(ops: VersionOps<V>, c: Crate<V>)
    requires PlanCrate(ops, c).Ok? && PlanCrate(ops, c).value.rewriteManifest
    ensures PlanCrate(ops, c).value.addHeading
  {
  }

  /** The crates of a selection planned in order; the first failing crate fails the whole selection. */
  function PlanCrates<V>(ops: VersionOps<V>, selection: seq<Crate<V>>): Result<seq<CrateRelease<V>>, ReleaseError>
    decreases |selection|
  {
    if selection == [] then Ok([])
    else
      match PlanCrates(ops, selection[..|selection| - 1])
      case Err(e) => Err(e)
      case Ok(done) =>
        match PlanCrate(ops, selection[|selection| - 1])
        case Err(e) => Err(e)
        case Ok(c) => Ok(done + [c])
  }

  /** Once a prefix of the selection fails, the whole selection fails with that error. */
  lemma {:induction false} PlanCratesFailsEarly<V>(ops: VersionOps<V>, selection: seq<Crate<V>>, k: nat)
    requires k <= |selection| && PlanCrates(ops, selection[..k]).Err?
    ensures PlanCrates(ops, selection) == PlanCrates(ops, selection[..k])
    decreases |selection| - k
  {
    if k < |selection| {
      var next := selection[..k + 1];
      assert next[..|next| - 1] == selection[..k];
      PlanCratesFailsEarly(ops, selection, k + 1);
    } else {
      assert selection[..k] == selection;
    }
  }

  /** A successful plan has one release per selected crate, each planned on its own. */
  lemma {:induction false} PlanCratesPerCrate<V>(ops: VersionOps<V>, selection: seq<Crate<V>>)
    requires PlanCrates(ops, selection).Ok?
    ensures |PlanCrates(ops, selection).value| == |selection|
    ensures forall i :: 0 <= i < |selection| ==>
      PlanCrate(ops, selection[i]) == Ok(PlanCrates(ops, selection).value[i])
    decreases |selection|
  {
    if selection != [] {
      var init := selection[..|selection| - 1];
      PlanCratesPerCrate(ops, init);
      forall i | 0 <= i < |init| ensures init[i] == selection[i] { }
    }
  }

  /** The changelog headings of a plan, as `(crate, version)` pairs. */
  function Headings<V(!new)>(plan: seq<CrateRelease<V>>): (r: seq<(string, V)>)
    ensures forall h :: h in r <==> exists i :: 0 <= i < |plan| && plan[i].addHeading && h == (plan[i].name, plan[i].version)
    ensures |r| <= |plan|
    decreases |plan|
  {
    if plan == [] then []
    else
      var init := plan[..|plan| - 1];
      var last := plan[|plan| - 1];
      var rest := Headings(init);
      assert forall i :: 0 <= i < |init| ==> init[i] == plan[i];
      rest + (if last.addHeading then [(last.name, last.version)] else [])
  }

  /** The manifests a plan rewrites, as `(crate, version)` pairs. */
  function Rewrites<V(!new)>(plan: seq<CrateRelease<V>>): (r: seq<(string, V)>)
    ensures forall h :: h in r <==> exists i :: 0 <= i < |plan| && plan[i].rewriteManifest && h == (plan[i].name, plan[i].version)
    decreases |plan|
  {
    if plan == [] then []
    else
      var init := plan[..|plan| - 1];
      var last := plan[|plan| - 1];
      assert forall i :: 0 <= i < |init| ==> init[i] == plan[i];
      Rewrites(init) + (if last.rewriteManifest then [(last.name, last.version)] else [])
  }

  /** What `bump_release_versions` changes: manifests, crate headings, and the workspace release name. */
  datatype Bump<V> = Bump(rewrites: seq<(string, V)>, headings: seq<(string, V)>, workspaceRelease: string)

  /**
   * `bump_release_versions` without its I/O: check the branch, stop early on
   * an empty selection, plan every crate in turn, then name the workspace
   * release after the branch.  `None` is the early exit.
   */
  method BumpReleaseVersionsPlan<V(!new)>(ops: VersionOps<V>, head: Result<string, ReleaseError>, dryRun: bool,
                                    formattedNow: string, selection: seq<Crate<V>>)
    returns (r: Result<Option<Bump<V>>, ReleaseError>)
    ensures ReleaseBranchForStep(head, dryRun, formattedNow).Err? ==>
      r == Err(ReleaseBranchForStep(head, dryRun, formattedNow).error)
    ensures ReleaseBranchForStep(head, dryRun, formattedNow).Ok? && selection == [] ==> r == Ok(None)
    ensures ReleaseBranchForStep(head, dryRun, formattedNow).Ok? && selection != [] ==>
      (r.Err? <==> PlanCrates(ops, selection).Err?) &&
      (r.Err? ==> r.error == PlanCrates(ops, selection).error) &&
      (r.Ok? ==>
         (r.value.Some? &&
          r.value.value.rewrites == Rewrites(PlanCrates(ops, selection).value) &&
          r.value.value.headings == Headings(PlanCrates(ops, selection).value) &&
          ReleaseBranchPrefix + r.value.value.workspaceRelease == ReleaseBranchForStep(head, dryRun, formattedNow).value))
  {
    var branch := ReleaseBranchForStep(head, dryRun, formattedNow);
    if branch.Err? {
      return Err(branch.error);
    }
    if selection == [] {
      return Ok(None);
    }
    var plan: seq<CrateRelease<V>> := [];
    var rewrites: seq<(string, V)> := [];
    var headings: seq<(string, V)> := [];
    for i := 0 to |selection|
      invariant PlanCrates(ops, selection[..i]) == Ok(plan)
      invariant rewrites == Rewrites(plan) && headings == Headings(plan)
    {
      assert selection[..i + 1][..i] == selection[..i];
      var planned := PlanCrate(ops, selection[i]);
      if planned.Err? {
        PlanCratesFailsEarly(ops, selection, i + 1);
        return Err(planned.error);
      }
      var c := planned.value;
      if c.rewriteManifest {
        rewrites := rewrites + [(c.name, c.version)];
      }
      if c.addHeading {
        headings := headings + [(c.name, c.version)];
      }
      assert (plan + [c])[..|plan|] == plan;
      plan := plan + [c];
    }
    assert selection[..|selection|] == selection;
    ReleaseBranchAlwaysNamesARelease(head, dryRun, formattedNow);
    var name := WorkspaceReleaseName(branch.value);
    return Ok(Some(Bump(rewrites, headings, name.value)));
  }

  // --------------------------------------------------- publishing crates

  /** The argument list of one `cargo publish` run. */
  function PublishArgs(manifestPath: string, dryRun: bool, allowDirty: bool): (r: seq<string>)
    ensures |r| == 5 + (if dryRun then 2 else 0) + (if allowDirty then 1 else 0)
    ensures r[0] == "publish" && r[|r| - 1] == "--manifest-path=" + manifestPath
    ensures "--dry-run" in r <==> dryRun
    ensures "--no-verify" in r <==> dryRun
    ensures "--allow-dirty" in r <==> allowDirty
    ensures "--no-default-features" in r && "--verbose" in r && "--locked" in r
  {
    ["publish"]
      + (if dryRun then ["--dry-run", "--no-verify"] else [])
      + (if allowDirty then ["--allow-dirty"] else [])
      + ["--no-default-features", "--verbose", "--locked", "--manifest-path=" + manifestPath]
  }

  function Concat(parts: seq<string>): string
    decreases |parts|
  {
    if parts == [] then "" else Concat(parts[..|parts| - 1]) + parts[|parts| - 1]
  }

  /** A non-empty line with no `\n` before its end, which is a `\n` unless it is the last line. */
  predicate IsLine(line: string, isLast: bool) {
    && line != ""
    && (forall j :: 0 <= j < |line| - 1 ==> line[j] != '\n')
    && (!isLast ==> line[|line| - 1] == '\n')
  }

  /** `lines_with_terminator`: lines that keep their `\n`, so that together they are the text. */
  function LinesWithTerminator(text: string): (r: seq<string>)
    ensures Concat(r) == text
    ensures forall i :: 0 <= i < |r| ==> IsLine(r[i], i == |r| - 1)
    decreases |text|
  {
    if text == [] then []
    else
      var k := FirstNewline(text, 0);
      if k == |text| then
        assert Concat([text]) == Concat([]) + text;
        [text]
      else
        var line := text[..k + 1];
        var rest := LinesWithTerminator(text[k + 1..]);
        ConcatPrepend(line, rest);
        assert line + text[k + 1..] == text;
        [line] + rest
  }

  /** The index of the first `\n` at or after `from`, or `|s|` if there is none. */
  function FirstNewline(s: string, from: nat): (k: nat)
    requires from <= |s|
    ensures from <= k <= |s|
    ensures forall j :: from <= j < k ==> s[j] != '\n'
    ensures k < |s| ==> s[k] == '\n'
    decreases |s| - from
  {
    if from == |s| || s[from] == '\n' then from else FirstNewline(s, from + 1)
  }

  lemma {:induction false} ConcatPrepend(first: string, rest: seq<string>)
    ensures Concat([first] + rest) == first + Concat(rest)
    decreases |rest|
  {
    if rest == [] {
      assert [first] + rest == [first];
      assert Concat([first]) == Concat([]) + first;
    } else {
      var all := [first] + rest;
      assert all[..|all| - 1] == [first] + rest[..|rest| - 1];
      ConcatPrepend(first, rest[..|rest| - 1]);
    }
  }

  const ErrorMarker: string := "error:"

  /** The index of the last line containing `error:`, if any. */
  function LastErrorLine(lines: seq<string>): (r: Option<nat>)
    ensures r.Some? ==> r.value < |lines| && Contains(lines[r.value], ErrorMarker)
    ensures r.Some? ==> forall j :: r.value < j < |lines| ==> !Contains(lines[j], ErrorMarker)
    ensures r.None? ==> forall j :: 0 <= j < |lines| ==> !Contains(lines[j], ErrorMarker)
    decreases |lines|
  {
    if lines == [] then None
    else if Contains(lines[|lines| - 1], ErrorMarker) then Some(|lines| - 1)
    else LastErrorLine(lines[..|lines| - 1])
  }

  /** The reported part of a failed run's stderr: from the last `error:` line to the end, or everything. */
  function ErrorTail(lines: seq<string>): string {
    var start := if LastErrorLine(lines).Some? then LastErrorLine(lines).value else 0;
    Concat(lines[start..])
  }

  /** One more line either restarts the tail, when it holds `error:`, or extends it. */
  lemma ErrorTailStep(lines: seq<string>, line: string)
    ensures ErrorTail(lines + [line]) ==
      if Contains(line, ErrorMarker) then line else ErrorTail(lines) + line
  {
    var all := lines + [line];
    assert all[..|all| - 1] == lines;
    if Contains(line, ErrorMarker) {
      assert all[|lines|..] == [line];
      assert Concat([line]) == Concat([]) + line;
    } else {
      var start := if LastErrorLine(lines).Some? then LastErrorLine(lines).value else 0;
      assert all[start..] == lines[start..] + [line];
      assert all[start..][..|all[start..]| - 1] == lines[start..];
    }
  }

  /**
   * The stderr filter of `publish_paths_to_crates_io`: the collected text
   * restarts at every line containing `error:`.
   */
  method ErrorDetails(stderr: string) returns (details: string)
    ensures details == ErrorTail(LinesWithTerminator(stderr))
    ensures LastErrorLine(LinesWithTerminator(stderr)).None? ==> details == stderr
  {
    var lines := LinesWithTerminator(stderr);
    details := "";
    for i := 0 to |lines|
      invariant details == ErrorTail(lines[..i])
    {
      ErrorTailPrefixStep(lines, i);
      if Contains(lines[i], ErrorMarker) {
        details := "";
      }
      details := details + lines[i];
    }
    ErrorTailWhole(lines);
  }

  /** `ErrorTailStep` on the prefixes of one list of lines. */
  lemma ErrorTailPrefixStep(lines: seq<string>, i: nat)
    requires i < |lines|
    ensures ErrorTail(lines[..i + 1]) ==
      if Contains(lines[i], ErrorMarker) then lines[i] else ErrorTail(lines[..i]) + lines[i]
  {
    assert lines[..i + 1] == lines[..i] + [lines[i]];
    ErrorTailStep(lines[..i], lines[i]);
  }

  /** The tail of all the lines; without an `error:` line it is all of them. */
  lemma ErrorTailWhole(lines: seq<string>)
    ensures ErrorTail(lines[..|lines|]) == ErrorTail(lines)
    ensures LastErrorLine(lines).None? ==> ErrorTail(lines) == Concat(lines)
  {
    assert lines[..|lines|] == lines;
    assert lines[0..] == lines;
  }

  /** What running `cargo` gives back: whether it succeeded and its stderr. */
  datatype Output = Output(success: bool, stderr: string)

  /** The report entry for one failed manifest: its debug-quoted path, then its error tail. */
  function FailureEntry(manifestPath: string, stderr: string): (r: string)
    ensures r != ""
  {
    "\n\"" + manifestPath + "\": \n" + ErrorTail(LinesWithTerminator(stderr))
  }

  /** The run of `cargo publish` on `path` started and succeeded. */
  predicate Succeeded(path: string, dryRun: bool, allowDirty: bool, run: seq<string> -> Result<Output, string>) {
    var output := run(PublishArgs(path, dryRun, allowDirty));
    output.Ok? && output.value.success
  }

  /** Every run of `cargo publish` on `paths` started and succeeded. */
  predicate AllSucceeded(paths: seq<string>, dryRun: bool, allowDirty: bool,
                         run: seq<string> -> Result<Output, string>) {
    forall i :: 0 <= i < |paths| ==> Succeeded(paths[i], dryRun, allowDirty, run)
  }

  /**
   * One iteration of the publish loop: a run that cannot be started ends
   * everything with its error, a failed run appends its entry to the report.
   */
  function PublishStep(report: Result<string, ReleaseError>, path: string, dryRun: bool, allowDirty: bool,
                       run: seq<string> -> Result<Output, string>): (r: Result<string, ReleaseError>)
    ensures report.Err? ==> r == report
    ensures r.Ok? <==> report.Ok? && run(PublishArgs(path, dryRun, allowDirty)).Ok?
    ensures r.Ok? ==> (r.value == "" <==> report.value == "" && Succeeded(path, dryRun, allowDirty, run))
  {
    match report
    case Err(e) => Err(e)
    case Ok(acc) =>
      match run(PublishArgs(path, dryRun, allowDirty))
      case Err(message) => Err(ProcessFailed(message))
      case Ok(output) =>
        if output.success then Ok(acc)
        else
          var entry := FailureEntry(path, output.stderr);
          assert |acc + entry| == |acc| + |entry|;
          Ok(acc + entry)
  }

  /** The report of publishing `paths` in order, one step per manifest. */
  function PublishReport(paths: seq<string>, dryRun: bool, allowDirty: bool,
                         run: seq<string> -> Result<Output, string>): Result<string, ReleaseError>
    decreases |paths|
  {
    if paths == [] then Ok("")
    else
      PublishStep(PublishReport(paths[..|paths| - 1], dryRun, allowDirty, run), paths[|paths| - 1],
                  dryRun, allowDirty, run)
  }

  /** Every run on `paths` succeeded exactly when every run but the last did and the last one did. */
  lemma AllSucceededInit(paths: seq<string>, dryRun: bool, allowDirty: bool,
                         run: seq<string> -> Result<Output, string>)
    requires paths != []
    ensures AllSucceeded(paths, dryRun, allowDirty, run) <==>
      AllSucceeded(paths[..|paths| - 1], dryRun, allowDirty, run) &&
      Succeeded(paths[|paths| - 1], dryRun, allowDirty, run)
  {
    var init := paths[..|paths| - 1];
    if AllSucceeded(init, dryRun, allowDirty, run) && Succeeded(paths[|paths| - 1], dryRun, allowDirty, run) {
      forall i | 0 <= i < |paths| ensures Succeeded(paths[i], dryRun, allowDirty, run) {
        if i < |init| {
          assert paths[i] == init[i];
        }
      }
    }
    if AllSucceeded(paths, dryRun, allowDirty, run) {
      forall i | 0 <= i < |init| ensures Succeeded(init[i], dryRun, allowDirty, run) {
        assert init[i] == paths[i];
      }
    }
  }

  /** The report is empty exactly when every run started and succeeded. */
  lemma {:induction false} EmptyReportMeansAllSucceeded(paths: seq<string>, dryRun: bool, allowDirty: bool,
                                                        run: seq<string> -> Result<Output, string>)
    requires PublishReport(paths, dryRun, allowDirty, run).Ok?
    ensures PublishReport(paths, dryRun, allowDirty, run).value == "" <==> AllSucceeded(paths, dryRun, allowDirty, run)
    decreases |paths|
  {
    if paths != [] {
      EmptyReportMeansAllSucceeded(paths[..|paths| - 1], dryRun, allowDirty, run);
      AllSucceededInit(paths, dryRun, allowDirty, run);
    }
  }

  /**
   * `publish_paths_to_crates_io`: runs `cargo publish` for each manifest in
   * order and fails if any run could not start or any run failed.
   */
  method PublishPathsToCratesIo(paths: seq<string>, dryRun: bool, allowDirty: bool,
                                run: seq<string> -> Result<Output, string>)
    returns (r: Result<(), ReleaseError>)
    ensures PublishReport(paths, dryRun, allowDirty, run).Err? ==> r == Err(PublishReport(paths, dryRun, allowDirty, run).error)
    ensures PublishReport(paths, dryRun, allowDirty, run).Ok? ==>
      (r.Ok? <==> AllSucceeded(paths, dryRun, allowDirty, run))
    ensures r.Err? && PublishReport(paths, dryRun, allowDirty, run).Ok? ==>
      r.error == PublishFailed(PublishReport(paths, dryRun, allowDirty, run).value)
  {
    var errors := "";
    for i := 0 to |paths|
      invariant PublishReport(paths[..i], dryRun, allowDirty, run) == Ok(errors)
    {
      assert paths[..i + 1][..i] == paths[..i];
      var output := run(PublishArgs(paths[i], dryRun, allowDirty));
      if output.Err? {
        PublishReportFailsEarly(paths, dryRun, allowDirty, run, i + 1);
        return Err(ProcessFailed(output.error));
      }
      if !output.value.success {
        var details := ErrorDetails(output.value.stderr);
        var entry := "\n\"" + paths[i] + "\": \n" + details;
        assert entry == FailureEntry(paths[i], output.value.stderr);
        errors := errors + entry;
      }
    }
    assert paths[..|paths|] == paths;
    EmptyReportMeansAllSucceeded(paths, dryRun, allowDirty, run);
    if errors != "" {
      return Err(PublishFailed(errors));
    }
    return Ok(());
  }

  lemma {:induction false} PublishReportFailsEarly(paths: seq<string>, dryRun: bool, allowDirty: bool,
                                                   run: seq<string> -> Result<Output, string>, k: nat)
    requires k <= |paths| && PublishReport(paths[..k], dryRun, allowDirty, run).Err?
    ensures PublishReport(paths, dryRun, allowDirty, run) == PublishReport(paths[..k], dryRun, allowDirty, run)
    decreases |paths| - k
  {
    if k < |paths| {
      var next := paths[..k + 1];
      assert next[..|next| - 1] == paths[..k];
      PublishReportFailsEarly(paths, dryRun, allowDirty, run, k + 1);
    } else {
      assert paths[..k] == paths;
    }
  }

  /**
   * `publish_to_crates_io`'s selection: the manifest paths of the crate
   * release titles (`name-version`) that name a workspace member, in title
   * order; other titles are skipped.
   */
  function ManifestPathsOf(titles: seq<string>, pathsByTitle: map<string, string>): (r: seq<string>)
    ensures |r| <= |titles|
    ensures forall p :: p in r <==> exists i :: 0 <= i < |titles| && titles[i] in pathsByTitle && pathsByTitle[titles[i]] == p
    decreases |titles|
  {
    if titles == [] then []
    else
      var init := titles[..|titles| - 1];
      var last := titles[|titles| - 1];
      assert forall i :: 0 <= i < |init| ==> init[i] == titles[i];
      ManifestPathsOf(init, pathsByTitle) + (if last in pathsByTitle then [pathsByTitle[last]] else [])
  }

  /**
   * The selection keeps title order: the paths of two runs of titles are the
   * paths of the first run followed by those of the second, so crates are
   * published in the order their titles come.
   */
  lemma {:induction false} ManifestPathsKeepTitleOrder(a: seq<string>, b: seq<string>, pathsByTitle: map<string, string>)
    ensures ManifestPathsOf(a + b, pathsByTitle) == ManifestPathsOf(a, pathsByTitle) + ManifestPathsOf(b, pathsByTitle)
    decreases |b|
  {
    if b != [] {
      var ab := a + b;
      var initB := b[..|b| - 1];
      assert ab[..|ab| - 1] == a + initB;
      assert ab[|ab| - 1] == b[|b| - 1];
      ManifestPathsKeepTitleOrder(a, initB, pathsByTitle);
    } else {
      assert a + b == a;
    }
  }

  // ------------------------------------------------- post-release bump

  /** `name-version`, the form crate release titles take. */
  function NameVersion<V>(ops: VersionOps<V>, c: Crate<V>): string {
    c.name + "-" + ops.render(c.version)
  }

  /** The development version after a release: one patch up, with the `-dev.0` suffix. */
  function DevVersion<V>(ops: VersionOps<V>, v: V): V {
    ops.withDevSuffix(ops.incrementPatch(v))
  }

  /** The released members (their `name-version` is a crate release title) are bumped, prereleases skipped. */
  function DevBumps<V(!new)>(ops: VersionOps<V>, titles: set<string>, members: seq<Crate<V>>): (r: seq<(string, V)>)
    ensures |r| <= |members|
    ensures forall b :: b in r <==>
      (exists i :: 0 <= i < |members| &&
         NameVersion(ops, members[i]) in titles && !ops.isPrerelease(members[i].version) &&
         b == (members[i].name, DevVersion(ops, members[i].version)))
    decreases |members|
  {
    if members == [] then []
    else
      var init := members[..|members| - 1];
      var c := members[|members| - 1];
      assert forall i :: 0 <= i < |init| ==> init[i] == members[i];
      DevBumps(ops, titles, init) +
        (if NameVersion(ops, c) in titles && !ops.isPrerelease(c.version) then [(c.name, DevVersion(ops, c.version))] else [])
  }

  /**
   * `post_release_bump_versions` without its I/O: nothing happens on a branch
   * whose name does not contain the topmost release title; otherwise every
   * released, non-prerelease member moves to its development version.
   */
  function PostReleaseBumps<V(!new)>(ops: VersionOps<V>, branch: string, releaseTitle: string, titles: set<string>,
                               members: seq<Crate<V>>): (r: Option<seq<(string, V)>>)
    ensures r.None? <==> !Contains(branch, releaseTitle)
    ensures r.Some? ==> forall b :: b in r.value <==>
      (exists i :: 0 <= i < |members| &&
         NameVersion(ops, members[i]) in titles && !ops.isPrerelease(members[i].version) &&
         b == (members[i].name, DevVersion(ops, members[i].version)))
  {
    if !Contains(branch, releaseTitle) then None else Some(DevBumps(ops, titles, members))
  }

  /** A prerelease member is never bumped after a release, even when it was released. */
  lemma PrereleaseMembersAreSkipped<V(!new)>(ops: VersionOps<V>, branch: string, releaseTitle: string,
                                       titles: set<string>, members: seq<Crate<V>>, i: nat)
    requires i < |members| && ops.isPrerelease(members[i].version)
    requires forall j :: 0 <= j < |members| && j != i ==> members[j].name != members[i].name
    requires PostReleaseBumps(ops, branch, releaseTitle, titles, members).Some?
    ensures forall b :: b in PostReleaseBumps(ops, branch, releaseTitle, titles, members).value ==>
      b.0 != members[i].name
  {
  }
}
