/**
 * The command-line parsers of the release automation: comma-separated lists
 * of dependency kinds, crate-state flags and release steps, and the copy of
 * the check arguments into selection criteria.
 *
 * Lower-casing covers ASCII letters only.
 */
module ReleaseCli {
  import opened Wrappers
  import opened Release

  // ------------------------------------------------------------ strings

  /** `str::split`: the pieces between separators, empty pieces included. */
  function Split(s: string, sep: char): (r: seq<string>)
    ensures |r| >= 1
    ensures forall i :: 0 <= i < |r| ==> sep !in r[i]
    ensures Join(r, sep) == s
    decreases |s|
  {
    if s == [] then [""]
    else
      var rest := Split(s[1..], sep);
      if s[0] == sep then
        assert [s[0]] + s[1..] == s;
        [""] + rest
      else
        var parts := [[s[0]] + rest[0]] + rest[1..];
        assert parts[1..] == rest[1..];
        assert Join(parts, sep) == [s[0]] + Join(rest, sep) by {
          if |rest| > 1 {
            assert Join(rest, sep) == rest[0] + [sep] + Join(rest[1..], sep);
          }
        }
        assert [s[0]] + s[1..] == s;
        parts
  }

  /** The pieces glued back together with the separator between them. */
  function Join(parts: seq<string>, sep: char): string
    requires |parts| >= 1
    decreases |parts|
  {
    if |parts| == 1 then parts[0] else parts[0] + [sep] + Join(parts[1..], sep)
  }

  /** Dropping the first character of the first piece drops the first character of the joined text. */
  lemma JoinDropFirstChar(parts: seq<string>, sep: char)
    requires |parts| >= 1 && |parts[0]| > 0
    ensures |Join(parts, sep)| > 0 && Join(parts, sep)[0] == parts[0][0]
    ensures Join([parts[0][1..]] + parts[1..], sep) == Join(parts, sep)[1..]
  {
    var shorter := [parts[0][1..]] + parts[1..];
    assert shorter[1..] == parts[1..];
  }

  /** Splitting what was joined gives back the pieces, when none holds the separator. */
  lemma {:induction false} SplitJoin(parts: seq<string>, sep: char)
    requires |parts| >= 1
    requires forall i :: 0 <= i < |parts| ==> sep !in parts[i]
    ensures Split(Join(parts, sep), sep) == parts
    decreases |parts|, |parts[0]|
  {
    var joined := Join(parts, sep);
    if |parts[0]| > 0 {
      var p0 := parts[0];
      var shorter := [p0[1..]] + parts[1..];
      assert shorter[1..] == parts[1..];
      assert sep !in shorter[0] by {
        assert forall c :: c in p0[1..] ==> c in p0;
      }
      SplitJoin(shorter, sep);
      JoinDropFirstChar(parts, sep);
      assert [p0[0]] + p0[1..] == p0;
    } else if |parts| > 1 {
      SplitJoin(parts[1..], sep);
      assert joined[1..] == Join(parts[1..], sep);
      assert [""] + parts[1..] == parts;
    }
  }

  function LowerChar(c: char): char {
    if 'A' <= c <= 'Z' then (c as int + 32) as char else c
  }

  /** `to_lowercase`, on ASCII letters. */
  function Lower(s: string): (r: string)
    ensures |r| == |s|
    ensures forall i :: 0 <= i < |s| ==> !('A' <= r[i] <= 'Z')
    ensures forall i :: 0 <= i < |s| ==> ('a' <= r[i] <= 'z' <==> 'a' <= s[i] <= 'z' || 'A' <= s[i] <= 'Z')
    ensures forall i :: 0 <= i < |s| ==> (!('A' <= s[i] <= 'Z') ==> r[i] == s[i])
    ensures forall i :: 0 <= i < |s| && 'A' <= s[i] <= 'Z' ==> r[i] as int == s[i] as int + 32
  {
    seq(|s|, i requires 0 <= i < |s| => LowerChar(s[i]))
  }

  lemma LowerIdempotent(s: string)
    ensures Lower(Lower(s)) == Lower(s)
  {
  }

  // ----------------------------------------------------- dependency kinds

  datatype DepKind = Normal | Development | Build

  /** The dependency kind a lower-cased word names. */
  function KindOf(word: string): (r: Option<DepKind>)
    ensures r == Some(Normal) <==> word == "normal"
    ensures r == Some(Development) <==> word == "development"
    ensures r == Some(Build) <==> word == "build"
  {
    if word == "normal" then Some(Normal)
    else if word == "development" then Some(Development)
    else if word == "build" then Some(Build)
    else None
  }

  /** A word `parse_depkind` lets through: empty, or a kind name in any letter case. */
  predicate Accepted(word: string) {
    Lower(word) == "" || KindOf(Lower(word)).Some?
  }

  const InvalidDepKind: string := "invalid dependency kind: "

  /**
   * `parse_depkind`: every comma-separated word, lower-cased, is skipped when
   * empty and otherwise must name a kind; the first word that names none is
   * the error.
   */
  method ParseDepKind(input: string) returns (r: Result<set<DepKind>, string>)
    ensures r.Ok? <==> forall i :: 0 <= i < |Split(input, ',')| ==> Accepted(Split(input, ',')[i])
    ensures r.Ok? ==> forall k :: k in r.value <==>
      exists i :: 0 <= i < |Split(input, ',')| && KindOf(Lower(Split(input, ',')[i])) == Some(k)
    ensures r.Err? ==>
      exists i :: 0 <= i < |Split(input, ',')| &&
        (forall j :: 0 <= j < i ==> Accepted(Split(input, ',')[j])) &&
        !Accepted(Split(input, ',')[i]) && r.error == InvalidDepKind + Lower(Split(input, ',')[i])
  {
    var words := Split(input, ',');
    var kinds: set<DepKind> := {};
    for i := 0 to |words|
      invariant forall j :: 0 <= j < i ==> Accepted(words[j])
      invariant forall k :: k in kinds <==> exists j :: 0 <= j < i && KindOf(Lower(words[j])) == Some(k)
    {
      var word := Lower(words[i]);
      if word == "" {
        continue;
      }
      var kind := KindOf(word);
      if kind.None? {
        assert words == Split(input, ',') && !Accepted(words[i]);
        return Err(InvalidDepKind + word);
      }
      kinds := kinds + {kind.value};
    }
    assert words == Split(input, ',');
    return Ok(kinds);
  }

  // ---------------------------------------------- flag and step lists

  /** Every word is empty or parses. */
  predicate AllParse<F>(words: seq<string>, fromStr: string -> Option<F>) {
    forall i :: 0 <= i < |words| ==> words[i] == "" || fromStr(words[i]).Some?
  }

  /** Some non-empty word parses to `f`. */
  predicate ParsesTo<F(==)>(words: seq<string>, fromStr: string -> Option<F>, f: F) {
    exists i :: 0 <= i < |words| && words[i] != "" && fromStr(words[i]) == Some(f)
  }

  /**
   * The `split`/`filter`/`try_fold` pipeline over the words: empty words are skipped, every other word must parse, and the parsed
   * values are collected into `acc`; the first word that does not parse
   * stops the fold with `error`.
   */
  function TryFoldInsert<F(!new)>(words: seq<string>, fromStr: string -> Option<F>, acc: set<F>, error: string)
    : (r: Result<set<F>, string>)
    ensures r.Ok? <==> AllParse(words, fromStr)
    ensures r.Ok? ==> forall f :: f in r.value <==> f in acc || ParsesTo(words, fromStr, f)
    ensures r.Err? ==> r.error == error
    decreases |words|
  {
    if words == [] then Ok(acc)
    else
      var tail := words[1..];
      assert forall i :: 0 <= i < |tail| ==> tail[i] == words[i + 1];
      if words[0] == "" then TryFoldInsert(tail, fromStr, acc, error)
      else
        match fromStr(words[0])
        case None => Err(error)
        case Some(f) => TryFoldInsert(tail, fromStr, acc + {f}, error)
  }

  function CouldNotParse(input: string, typeName: string): string {
    "could not parse '" + input + "' as " + typeName
  }

  /**
   * A comma-separated list of values into a set: empty words are ignored,
   * any word that is not a value's name fails the whole input.
   */
  function ParseList<F(!new)>(input: string, fromStr: string -> Option<F>, typeName: string): (r: Result<set<F>, string>)
    ensures r.Ok? <==> AllParse(Split(input, ','), fromStr)
    ensures r.Ok? ==> forall f :: f in r.value <==> ParsesTo(Split(input, ','), fromStr, f)
    ensures r.Err? ==> r.error == CouldNotParse(input, typeName)
  {
    TryFoldInsert(Split(input, ','), fromStr, {}, CouldNotParse(input, typeName))
  }

  /** The flags a crate's release state can carry that the check may allow as blockers. */
  datatype CrateStateFlags =
    | MissingReadme
    | UnreleasableViaChangelogFrontmatter
    | DisallowedVersionReqViolated
    | EnforcedVersionReqViolated

  function FlagName(f: CrateStateFlags): string {
    match f
    case MissingReadme => "MissingReadme"
    case UnreleasableViaChangelogFrontmatter => "UnreleasableViaChangelogFrontmatter"
    case DisallowedVersionReqViolated => "DisallowedVersionReqViolated"
    case EnforcedVersionReqViolated => "EnforcedVersionReqViolated"
  }

  /** The derived `FromStr`: the exact variant name. */
  function FlagFromStr(s: string): (r: Option<CrateStateFlags>)
    ensures r.Some? ==> FlagName(r.value) == s
    ensures forall f :: FlagName(f) == s ==> r == Some(f)
  {
    if s == "MissingReadme" then Some(MissingReadme)
    else if s == "UnreleasableViaChangelogFrontmatter" then Some(UnreleasableViaChangelogFrontmatter)
    else if s == "DisallowedVersionReqViolated" then Some(DisallowedVersionReqViolated)
    else if s == "EnforcedVersionReqViolated" then Some(EnforcedVersionReqViolated)
    else None
  }

  /** `parse_cratestateflags`. */
  function ParseCrateStateFlags(input: string): (r: Result<set<CrateStateFlags>, string>)
    ensures r.Ok? <==> forall i :: 0 <= i < |Split(input, ',')| ==>
      Split(input, ',')[i] == "" || FlagFromStr(Split(input, ',')[i]).Some?
    ensures r.Ok? ==> forall f :: f in r.value <==> FlagName(f) in Split(input, ',')
    ensures r.Err? ==> r.error == CouldNotParse(input, "CrateStateFlags")
  {
    var r := ParseList(input, FlagFromStr, "CrateStateFlags");
    assert AllParse(Split(input, ','), FlagFromStr) <==> forall i :: 0 <= i < |Split(input, ',')| ==>
      Split(input, ',')[i] == "" || FlagFromStr(Split(input, ',')[i]).Some?;
    if r.Ok? then
      assert forall f :: f in r.value <==> FlagName(f) in Split(input, ',') by {
        forall f ensures f in r.value <==> FlagName(f) in Split(input, ',') {
          if FlagName(f) in Split(input, ',') {
            var i :| 0 <= i < |Split(input, ',')| && Split(input, ',')[i] == FlagName(f);
            assert FlagFromStr(Split(input, ',')[i]) == Some(f);
          }
        }
      }
      r
    else r
  }

  function StepName(s: ReleaseSteps): string {
    match s
    case CreateReleaseBranch => "CreateReleaseBranch"
    case BumpReleaseVersions => "BumpReleaseVersions"
    case PushForPrToMain => "PushForPrToMain"
    case CreatePrToMain => "CreatePrToMain"
    case VerifyMainBranch => "VerifyMainBranch"
    case PublishToCratesIo => "PublishToCratesIo"
    case PushReleaseTag => "PushReleaseTag"
    case BumpPostReleaseVersions => "BumpPostReleaseVersions"
    case PushForDevelopPr => "PushForDevelopPr"
    case CreatePrToDevelop => "CreatePrToDevelop"
  }

  /** The derived `FromStr` of the release steps: the exact variant name. */
  function StepFromStr(s: string): (r: Option<ReleaseSteps>)
    ensures r.Some? ==> StepName(r.value) == s
    ensures forall step :: StepName(step) == s ==> r == Some(step)
  {
    if s == "CreateReleaseBranch" then Some(CreateReleaseBranch)
    else if s == "BumpReleaseVersions" then Some(BumpReleaseVersions)
    else if s == "PushForPrToMain" then Some(PushForPrToMain)
    else if s == "CreatePrToMain" then Some(CreatePrToMain)
    else if s == "VerifyMainBranch" then Some(VerifyMainBranch)
    else if s == "PublishToCratesIo" then Some(PublishToCratesIo)
    else if s == "PushReleaseTag" then Some(PushReleaseTag)
    else if s == "BumpPostReleaseVersions" then Some(BumpPostReleaseVersions)
    else if s == "PushForDevelopPr" then Some(PushForDevelopPr)
    else if s == "CreatePrToDevelop" then Some(CreatePrToDevelop)
    else None
  }

  /** `parse_releasesteps`: the steps named in the input, as an ordered set. */
  function ParseReleaseSteps(input: string): (r: Result<set<ReleaseSteps>, string>)
    ensures r.Ok? <==> forall i :: 0 <= i < |Split(input, ',')| ==>
      Split(input, ',')[i] == "" || StepFromStr(Split(input, ',')[i]).Some?
    ensures r.Ok? ==> forall s :: s in r.value <==> StepName(s) in Split(input, ',')
    ensures r.Err? ==> r.error == CouldNotParse(input, "ReleaseSteps")
  {
    var r := ParseList(input, StepFromStr, "ReleaseSteps");
    assert AllParse(Split(input, ','), StepFromStr) <==> forall i :: 0 <= i < |Split(input, ',')| ==>
      Split(input, ',')[i] == "" || StepFromStr(Split(input, ',')[i]).Some?;
    if r.Ok? then
      assert forall s :: s in r.value <==> StepName(s) in Split(input, ',') by {
        forall s ensures s in r.value <==> StepName(s) in Split(input, ',') {
          if StepName(s) in Split(input, ',') {
            var i :| 0 <= i < |Split(input, ',')| && Split(input, ',')[i] == StepName(s);
            assert StepFromStr(Split(input, ',')[i]) == Some(s);
          }
        }
      }
      r
    else r
  }

  /** The default (empty) argument selects no step. */
  lemma EmptyInputSelectsNoSteps()
    ensures ParseReleaseSteps("") == Ok({})
  {
    assert Split("", ',') == [""];
    var r := ParseReleaseSteps("");
    assert r.Ok?;
    assert forall s :: s !in r.value by {
      forall s ensures s !in r.value {
        assert StepName(s) != "";
      }
    }
  }

  /**
   * An input that parses and names every step, in any order, comes out in
   * declaration order: `CreateReleaseBranch` first, `BumpReleaseVersions`
   * second, `CreatePrToDevelop` last.
   */
  lemma ParsedStepsComeOutOrdered(input: string)
    requires ParseReleaseSteps(input).Ok?
    requires forall s :: StepName(s) in Split(input, ',')
    ensures var steps := InOrder(ParseReleaseSteps(input).value);
      && steps == AllSteps()
      && steps[0] == CreateReleaseBranch
      && steps[1] == BumpReleaseVersions
      && steps[|steps| - 1] == CreatePrToDevelop
  {
    var parsed := ParseReleaseSteps(input).value;
    assert forall s :: s in parsed;
    EveryStepIsTen(parsed);
    OrderedAllIsAllSteps(InOrder(parsed));
  }

  lemma EveryStepIsTen(steps: set<ReleaseSteps>)
    requires forall s :: s in steps
    ensures |steps| == 10
  {
    var all := {CreateReleaseBranch, BumpReleaseVersions, PushForPrToMain, CreatePrToMain, VerifyMainBranch,
                PublishToCratesIo, PushReleaseTag, BumpPostReleaseVersions, PushForDevelopPr, CreatePrToDevelop};
    forall s ensures s in all {
      match s {
        case CreateReleaseBranch =>
        case BumpReleaseVersions =>
        case PushForPrToMain =>
        case CreatePrToMain =>
        case VerifyMainBranch =>
        case PublishToCratesIo =>
        case PushReleaseTag =>
        case BumpPostReleaseVersions =>
        case PushForDevelopPr =>
        case CreatePrToDevelop =>
      }
    }
    assert steps == all;
  }

  /** An ascending sequence of every step is the declaration order itself. */
  lemma OrderedAllIsAllSteps(xs: seq<ReleaseSteps>)
    requires Ascending(xs) && |xs| == 10
    ensures xs == AllSteps()
  {
    forall i | 0 <= i < 10 ensures xs[i] == AllSteps()[i] {
      RankLowerBound(xs, i);
      RankUpperBound(xs, i);
    }
  }

  lemma {:induction false} RankLowerBound(xs: seq<ReleaseSteps>, i: nat)
    requires Ascending(xs) && i < |xs|
    ensures Rank(xs[i]) >= i
    decreases i
  {
    if i > 0 {
      RankLowerBound(xs, i - 1);
    }
  }

  lemma {:induction false} RankUpperBound(xs: seq<ReleaseSteps>, i: nat)
    requires Ascending(xs) && |xs| == 10 && i < 10
    ensures Rank(xs[i]) <= i
    decreases 10 - i
  {
    if i < 9 {
      RankUpperBound(xs, i + 1);
    }
  }

  // ------------------------------------------------- selection criteria

  /** The check arguments, with regexes and version requirements as their source text. */
  datatype CheckArgs = CheckArgs(
    enforcedVersionReqs: seq<string>,
    disallowedVersionReqs: seq<string>,
    selectionFilter: string,
    allowedDevDependencyBlockers: set<CrateStateFlags>,
    allowedSelectionBlockers: set<CrateStateFlags>,
    excludeOptionalDeps: bool)

  datatype SelectionCriteria = SelectionCriteria(
    selectionFilter: string,
    disallowedVersionReqs: seq<string>,
    enforcedVersionReqs: seq<string>,
    allowedDevDependencyBlockers: set<CrateStateFlags>,
    allowedSelectionBlockers: set<CrateStateFlags>,
    excludeOptionalDeps: bool)

  /** `to_selection_criteria`: every argument carried over to the field of the same name. */
  function ToSelectionCriteria(args: CheckArgs): (c: SelectionCriteria)
    ensures c.selectionFilter == args.selectionFilter
    ensures c.disallowedVersionReqs == args.disallowedVersionReqs
    ensures c.enforcedVersionReqs == args.enforcedVersionReqs
    ensures c.allowedDevDependencyBlockers == args.allowedDevDependencyBlockers
    ensures c.allowedSelectionBlockers == args.allowedSelectionBlockers
    ensures c.excludeOptionalDeps == args.excludeOptionalDeps
  {
    SelectionCriteria(args.selectionFilter, args.disallowedVersionReqs, args.enforcedVersionReqs,
      args.allowedDevDependencyBlockers, args.allowedSelectionBlockers, args.excludeOptionalDeps)
  }

  /** No argument is lost: distinct arguments give distinct criteria. */
  lemma SelectionCriteriaInjective(a: CheckArgs, b: CheckArgs)
    requires ToSelectionCriteria(a) == ToSelectionCriteria(b)
    ensures a == b
  {
  }
}
