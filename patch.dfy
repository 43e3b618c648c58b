/**
 * `DockerfileTargets.patch` and the upstream URL its `build` fetches: the
 * upstream python Dockerfile for the Debian source is rewritten to start
 * from the Ubuntu release named by the OS variant.
 */
module DockerfilePatch {
  import opened Wrappers
  import opened PyStr
  import opened Targets
  import Matrix

  /** The message of the ValueError `patch` raises. */
  const PatchFailed: string := "FROM target patch failed, no changes."

  /** The rule of the jammy variant (upstream source bullseye). */
  const JammyPattern: string := "FROM buildpack-deps:bullseye"
  const JammyReplacement: string := "FROM buildpack-deps:jammy"

  /** The rule of the slim-jammy variant (upstream source slim-bullseye, tagged bullseye-slim upstream). */
  const SlimJammyPattern: string := "FROM debian:bullseye-slim"
  const SlimJammyReplacement: string := "FROM ubuntu:jammy"

  /** The directory of the docker-library python repository the upstream Dockerfiles are fetched from. */
  const UpstreamRoot: string := "https://raw.githubusercontent.com/docker-library/python/master/"

  /**
   * The upstream Dockerfile that `build` downloads for a target: below the
   * repository root, the path is the Python version, the upstream source and
   * "Dockerfile".
   */
  function SourceUrl(t: Target): (url: string)
    ensures StartsWith(url, UpstreamRoot)
    ensures '/' !in t.pythonVersion && '/' !in t.baseOs ==>
      Split(url[|UpstreamRoot|..], '/') == [t.pythonVersion, t.baseOs, "Dockerfile"]
  {
    var path := t.pythonVersion + "/" + t.baseOs + "/Dockerfile";
    if '/' !in t.pythonVersion && '/' !in t.baseOs then
      assert path == t.pythonVersion + ['/'] + (t.baseOs + ['/'] + "Dockerfile");
      SplitAtFirst(t.pythonVersion, '/', t.baseOs + ['/'] + "Dockerfile");
      SplitTwo(t.baseOs, '/', "Dockerfile");
      assert (UpstreamRoot + path)[|UpstreamRoot|..] == path;
      UpstreamRoot + path
    else
      UpstreamRoot + path
  }

  /**
   * `"-".join(reversed(base_os.split("-")))`: the Debian tag upstream uses
   * for a slim source, whose hyphen-separated words are those of the source
   * in reverse order.
   */
  function DebianTag(baseOs: string): (tag: string)
    ensures Split(tag, '-') == Reverse(Split(baseOs, '-'))
  {
    var words := Split(baseOs, '-');
    SplitPartsAvoidSep(baseOs, '-');
    SplitJoin(Reverse(words), '-');
    Join(Reverse(words), '-')
  }

  /** `os_variant.split("-")[1]`: IndexError when the variant has no hyphen. */
  function UbuntuRelease(osv: string): (r: Result<string>)
    ensures r.Err? <==> |Split(osv, '-')| < 2
    ensures r.Err? ==> r.error == IndexError
  {
    var parts := Split(osv, '-');
    if |parts| < 2 then Err(IndexError) else Ok(parts[1])
  }

  /**
   * The (pattern, replacement) pair handed to `str.replace`. Slim variants
   * replace the Debian base image by the Ubuntu release named in the OS
   * variant; other variants swap the buildpack-deps tag.
   */
  function PatchRule(t: Target): (r: Result<(string, string)>)
    ensures r.Err? <==> IsSlim(t.osVariant) && |Split(t.osVariant, '-')| < 2
    ensures r.Err? ==> r.error == IndexError
    ensures r.Ok? ==> |r.value.0| > 0
  {
    if IsSlim(t.osVariant) then
      match UbuntuRelease(t.osVariant)
      case Err(e) => Err(e)
      case Ok(release) => Ok(("FROM debian:" + DebianTag(t.baseOs), "FROM ubuntu:" + release))
    else
      Ok(("FROM buildpack-deps:" + t.baseOs, "FROM buildpack-deps:" + t.osVariant))
  }

  /** `patch(original)`: replace every occurrence, and fail with ValueError when nothing changed. */
  function Patch(t: Target, original: string): (r: Result<string>)
    ensures PatchRule(t).Err? ==> r == Err(PatchRule(t).error)
    ensures r.Ok? ==> r.value != original && r.value == ReplaceAll(original, PatchRule(t).value.0, PatchRule(t).value.1)
  {
    match PatchRule(t)
    case Err(e) => Err(e)
    case Ok((pat, rep)) =>
      var patched := ReplaceAll(original, pat, rep);
      if patched == original then Err(ValueError(PatchFailed)) else Ok(patched)
  }

  // ---------------------------------------------------------------------------
  // Properties

  /**
   * With a rule whose replacement differs from its pattern, `patch` succeeds
   * exactly when the pattern occurs, and then every occurrence is replaced.
   */
  lemma PatchSucceedsIffPatternOccurs(t: Target, original: string)
    requires PatchRule(t).Ok? && PatchRule(t).value.0 != PatchRule(t).value.1
    ensures var (pat, rep) := PatchRule(t).value;
      Patch(t, original) == if Contains(original, pat) then Ok(ReplaceAll(original, pat, rep)) else Err(ValueError(PatchFailed))
  {
    var (pat, rep) := PatchRule(t).value;
    ReplaceUnchangedIff(original, pat, rep);
  }

  /** "slim-jammy".split("-")[1] is "jammy". */
  lemma SlimJammyRelease(osv: string)
    requires osv == "slim-jammy"
    ensures UbuntuRelease(osv) == Ok("jammy")
  {
    SplitTwo("slim", '-', "jammy");
    assert "slim" + ['-'] + "jammy" == "slim-jammy";
  }

  /** "-".join(reversed("slim-bullseye".split("-"))) is "bullseye-slim". */
  lemma SlimBullseyeDebianTag(baseOs: string)
    requires baseOs == "slim-bullseye"
    ensures DebianTag(baseOs) == "bullseye-slim"
  {
    SplitTwo("slim", '-', "bullseye");
    assert "slim" + ['-'] + "bullseye" == "slim-bullseye";
    assert Reverse(["slim", "bullseye"]) == ["bullseye", "slim"];
    JoinTwo("bullseye", '-', "slim");
    assert "bullseye" + ['-'] + "slim" == "bullseye-slim";
  }

  /** The literal patterns and replacements, assembled from their parts. */
  lemma RuleStrings()
    ensures "FROM buildpack-deps:" + "bullseye" == JammyPattern
    ensures "FROM buildpack-deps:" + "jammy" == JammyReplacement
    ensures "FROM debian:" + "bullseye-slim" == SlimJammyPattern
    ensures "FROM ubuntu:" + "jammy" == SlimJammyReplacement
  {
  }

  /** The rule of every jammy target. */
  lemma JammyPatchRule(t: Target)
    requires t.osVariant == "jammy" && t.baseOs == "bullseye"
    ensures PatchRule(t) == Ok((JammyPattern, JammyReplacement))
  {
    MatrixSlimness();
    RuleStrings();
  }

  /** The slim rule in terms of the Debian tag and the Ubuntu release. */
  lemma SlimPatchRule(t: Target, tag: string, release: string)
    requires IsSlim(t.osVariant)
    requires UbuntuRelease(t.osVariant) == Ok(release) && DebianTag(t.baseOs) == tag
    ensures PatchRule(t) == Ok(("FROM debian:" + tag, "FROM ubuntu:" + release))
  {
  }

  /** The rule of every slim-jammy target. */
  lemma SlimJammyPatchRule(t: Target)
    requires t.osVariant == "slim-jammy" && t.baseOs == "slim-bullseye"
    ensures PatchRule(t) == Ok((SlimJammyPattern, SlimJammyReplacement))
  {
    MatrixSlimness();
    SlimJammyRelease(t.osVariant);
    SlimBullseyeDebianTag(t.baseOs);
    SlimPatchRule(t, "bullseye-slim", "jammy");
    RuleStrings();
  }

  /** The rules for the two matrix OS variants, whatever the Python version or kind. */
  lemma MatrixPatchRules(kind: Kind, pyv: string)
    ensures PatchRule(MakeTarget(kind, "jammy", pyv).value) == Ok((JammyPattern, JammyReplacement))
    ensures PatchRule(MakeTarget(kind, "slim-jammy", pyv).value) == Ok((SlimJammyPattern, SlimJammyReplacement))
  {
    JammyPatchRule(MakeTarget(kind, "jammy", pyv).value);
    SlimJammyPatchRule(MakeTarget(kind, "slim-jammy", pyv).value);
  }

  /** Every character after the first of the four rule strings. */
  lemma RuleTails()
    ensures JammyPattern[1..] == "ROM buildpack-deps:bullseye"
    ensures JammyReplacement[1..] == "ROM buildpack-deps:jammy"
    ensures SlimJammyPattern[1..] == "ROM debian:bullseye-slim"
    ensures SlimJammyReplacement[1..] == "ROM ubuntu:jammy"
  {
  }

  /** "F" starts each rule string and occurs nowhere else in it. */
  lemma RuleTailsAvoidF()
    ensures 'F' !in "ROM buildpack-deps:bullseye" && 'F' !in "ROM buildpack-deps:jammy"
    ensures 'F' !in "ROM debian:bullseye-slim" && 'F' !in "ROM ubuntu:jammy"
  {
  }

  /** Neither string of a rule is a prefix of the other. */
  lemma RulePrefixes()
    ensures !StartsWith(JammyPattern, JammyReplacement) && !StartsWith(JammyReplacement, JammyPattern)
    ensures !StartsWith(SlimJammyPattern, SlimJammyReplacement) && !StartsWith(SlimJammyReplacement, SlimJammyPattern)
  {
    assert JammyPattern[20] != JammyReplacement[20];
    assert SlimJammyPattern[5] != SlimJammyReplacement[5];
  }

  /** Both matrix rules leave no occurrence of their pattern behind. */
  lemma MatrixRulesSelfClearing()
    ensures SelfClearing(JammyPattern, JammyReplacement)
    ensures SelfClearing(SlimJammyPattern, SlimJammyReplacement)
  {
    RuleTails();
    RuleTailsAvoidF();
    RulePrefixes();
  }

  /** A matrix target's `patch` fails exactly when its pattern is absent from the upstream text. */
  lemma MatrixPatchFailsIffAbsent(kind: Kind, osv: string, pyv: string, original: string)
    requires osv in Matrix.OsVariants
    ensures var t := MakeTarget(kind, osv, pyv).value;
      PatchRule(t).Ok? && (Patch(t, original).Err? <==> !Contains(original, PatchRule(t).value.0))
    ensures var t := MakeTarget(kind, osv, pyv).value;
      Patch(t, original).Err? ==> Patch(t, original).error == ValueError(PatchFailed)
  {
    var t := MakeTarget(kind, osv, pyv).value;
    MatrixPatchRules(kind, pyv);
    PatchSucceedsIffPatternOccurs(t, original);
  }

  /**
   * Patching an already-patched document fails: after the replacement the
   * pattern is gone, so a second `patch` changes nothing and raises ValueError.
   */
  lemma MatrixRepatchFails(kind: Kind, osv: string, pyv: string, original: string)
    requires osv in Matrix.OsVariants
    requires Patch(MakeTarget(kind, osv, pyv).value, original).Ok?
    ensures var t := MakeTarget(kind, osv, pyv).value;
      Patch(t, Patch(t, original).value) == Err(ValueError(PatchFailed))
  {
    var t := MakeTarget(kind, osv, pyv).value;
    var patched := Patch(t, original).value;
    MatrixPatchRules(kind, pyv);
    MatrixRulesSelfClearing();
    ReplaceLeavesNoPattern(original, PatchRule(t).value.0, PatchRule(t).value.1);
    MatrixPatchFailsIffAbsent(kind, osv, pyv, patched);
  }

  /** A replaced text that held the pattern holds the replacement. */
  lemma {:induction false} ReplaceIntroduces(s: string, pat: string, rep: string)
    requires |pat| > 0 && Contains(s, pat)
    ensures Contains(ReplaceAll(s, pat, rep), rep)
    decreases |s|
  {
    if StartsWith(s, pat) {
      var r := ReplaceAll(s, pat, rep);
      assert r[..|rep|] == rep;
    } else {
      ReplaceIntroduces(s[1..], pat, rep);
      assert ReplaceAll(s, pat, rep)[1..] == ReplaceAll(s[1..], pat, rep);
    }
  }

  /**
   * The two worked examples: a jammy target turns "FROM buildpack-deps:bullseye"
   * into "FROM buildpack-deps:jammy", a slim-jammy target turns
   * "FROM debian:bullseye-slim" into "FROM ubuntu:jammy".
   */
  lemma MatrixPatchExamples(kind: Kind, pyv: string, original: string)
    ensures Contains(original, JammyPattern) ==>
      var r := Patch(MakeTarget(kind, "jammy", pyv).value, original);
      r.Ok? && Contains(r.value, JammyReplacement)
    ensures Contains(original, SlimJammyPattern) ==>
      var r := Patch(MakeTarget(kind, "slim-jammy", pyv).value, original);
      r.Ok? && Contains(r.value, SlimJammyReplacement)
  {
    MatrixPatchRules(kind, pyv);
    PatchSucceedsIffPatternOccurs(MakeTarget(kind, "jammy", pyv).value, original);
    PatchSucceedsIffPatternOccurs(MakeTarget(kind, "slim-jammy", pyv).value, original);
    if Contains(original, JammyPattern) {
      ReplaceIntroduces(original, JammyPattern, JammyReplacement);
    }
    if Contains(original, SlimJammyPattern) {
      ReplaceIntroduces(original, SlimJammyPattern, SlimJammyReplacement);
    }
  }
}
