/**
 * Target identity: the `Targets` class of dodo.py and its six subclasses,
 * flattened into one `Kind` tag with a resolver function per property.
 */
module Targets {
  import opened Wrappers
  import opened PyStr
  import Matrix

  const ImageRegistry: string := "registry.internal.telnyx.com"
  /** `image_namespace` and `image_name`, defined from `DockerimageTargets` down. */
  const ImageNamespace: string := "jenkins"
  const ImageName: string := "python"

  /** The class a target is an instance of; `Base` is the plain `Targets` class. */
  datatype Kind =
    | Base               // Targets
    | Dockerfile         // DockerfileTargets
    | S6Dockerfile       // S6DockerfileTargets
    | Dockerimage        // DockerimageTargets
    | S6Dockerimage      // S6DockerimageTargets
    | DockerimageTest    // DockerimageTests
    | S6DockerimageTest  // S6DockerimageTests

  /** The six kinds that emit tasks, in the order dodo.py declares them. */
  const TaskKinds: seq<Kind> :=
    [Dockerfile, S6Dockerfile, Dockerimage, S6Dockerimage, DockerimageTest, S6DockerimageTest]

  /** One target instance: the fields `__init__` sets (the filesystem `target_dir` is `Subdir`). */
  datatype Target = Target(kind: Kind, osVariant: string, pythonVersion: string, baseOs: string)

  /** `cls(osv, pyv)`: looks up the upstream source, raising KeyError for an unknown OS variant. */
  function MakeTarget(kind: Kind, osv: string, pyv: string): (r: Result<Target>)
    ensures r.Ok? <==> osv in Matrix.SourceForVariant
    ensures r.Err? ==> r.error == KeyError(osv)
    ensures r.Ok? ==> r.value.kind == kind && r.value.osVariant == osv && r.value.pythonVersion == pyv
    ensures r.Ok? ==> r.value.baseOs == Matrix.SourceForVariant[osv]
  {
    if osv in Matrix.SourceForVariant then Ok(Target(kind, osv, pyv, Matrix.SourceForVariant[osv]))
    else Err(KeyError(osv))
  }

  /** `subdir`: the Python version and the OS variant, recovered by splitting on "/" when neither holds one. */
  function Subdir(t: Target): (d: string)
    ensures '/' !in t.pythonVersion && '/' !in t.osVariant ==> Split(d, '/') == [t.pythonVersion, t.osVariant]
  {
    if '/' !in t.pythonVersion && '/' !in t.osVariant then
      SplitTwo(t.pythonVersion, '/', t.osVariant);
      t.pythonVersion + "/" + t.osVariant
    else
      t.pythonVersion + "/" + t.osVariant
  }

  /** `basename_suffix`: None on the base class, a distinct literal on each subclass. */
  function BasenameSuffix(k: Kind): (r: Option<string>)
    ensures r.None? <==> k == Base
    ensures r.Some? ==> |r.value| > 0 && '/' !in r.value
  {
    match k
    case Base => None
    case Dockerfile => Some("Dockerfile")
    case S6Dockerfile => Some("with-s6.Dockerfile")
    case Dockerimage => Some("Dockerimage")
    case S6Dockerimage => Some("with-s6.Dockerimage")
    case DockerimageTest => Some("Dockerimage.test")
    case S6DockerimageTest => Some("with-s6.Dockerimage.test")
  }

  /** `basename`: NotImplementedError on the base class. */
  function Basename(t: Target): (r: Result<string>)
    ensures r.Err? <==> t.kind == Base
    ensures r.Err? ==> r.error == NotImplementedError
  {
    match BasenameSuffix(t.kind)
    case None => Err(NotImplementedError)
    case Some(suffix) => Ok(Subdir(t) + "/" + suffix)
  }

  /** `"slim" in self.os_variant` */
  predicate IsSlim(osv: string)
  {
    Contains(osv, "slim")
  }

  /** The two kinds whose `subtag` override appends "-s6". */
  predicate HasS6Subtag(k: Kind)
  {
    k == S6Dockerimage || k == S6DockerimageTest
  }

  /** `subtag`: the part of the image tag after the colon; it starts with the Python version and the S6 kinds end it with "-s6". */
  function Subtag(t: Target): (r: string)
    ensures StartsWith(r, t.pythonVersion)
    ensures HasS6Subtag(t.kind) ==> |r| >= 3 && r[|r| - 3..] == "-s6"
  {
    (if IsSlim(t.osVariant) then t.pythonVersion + "-slim" else t.pythonVersion)
    + (if HasS6Subtag(t.kind) then "-s6" else "")
  }

  /** The kinds that inherit `image_namespace` and `image_name` from `DockerimageTargets`. */
  predicate HasImageName(k: Kind)
  {
    k == Dockerimage || k == S6Dockerimage || k == DockerimageTest || k == S6DockerimageTest
  }

  /** The registry path before the colon of every image tag. */
  const ImageRepository: string := ImageRegistry + "/" + ImageNamespace + "/" + ImageName

  /** `fulltag`: AttributeError on the classes that define no `image_namespace`. */
  function Fulltag(t: Target): (r: Result<string>)
    ensures r.Ok? <==> HasImageName(t.kind)
    ensures r.Err? ==> r.error == AttributeError("image_namespace")
  {
    if HasImageName(t.kind) then Ok(ImageRepository + ":" + Subtag(t))
    else Err(AttributeError("image_namespace"))
  }

  // ---------------------------------------------------------------------------
  // Properties

  /** The subtag is the Python version, "-slim" for slim variants, then "-s6" for the S6 image kinds. */
  lemma SubtagShape(t: Target)
    ensures !IsSlim(t.osVariant) && !HasS6Subtag(t.kind) ==> Subtag(t) == t.pythonVersion
    ensures IsSlim(t.osVariant) && !HasS6Subtag(t.kind) ==> Subtag(t) == t.pythonVersion + "-slim"
    ensures !IsSlim(t.osVariant) && HasS6Subtag(t.kind) ==> Subtag(t) == t.pythonVersion + "-s6"
    ensures IsSlim(t.osVariant) && HasS6Subtag(t.kind) ==> Subtag(t) == t.pythonVersion + "-slim-s6"
  {
    if IsSlim(t.osVariant) && HasS6Subtag(t.kind) {
      assert t.pythonVersion + "-slim" + "-s6" == t.pythonVersion + "-slim-s6";
    }
  }

  /** Which of the two matrix OS variants are slim. */
  lemma MatrixSlimness()
    ensures !IsSlim("jammy")
    ensures IsSlim("slim-jammy")
  {
    ContainsChar("jammy", "slim", 's');
    assert StartsWith("slim-jammy", "slim");
  }

  /** slim-jammy / 3.10: the S6 image and S6 test kinds get "3.10-slim-s6", the S6 Dockerfile kind "3.10-slim". */
  lemma SubtagExamples()
    ensures Subtag(Target(S6Dockerimage, "slim-jammy", "3.10", "slim-bullseye")) == "3.10-slim-s6"
    ensures Subtag(Target(S6DockerimageTest, "slim-jammy", "3.10", "slim-bullseye")) == "3.10-slim-s6"
    ensures Subtag(Target(S6Dockerfile, "slim-jammy", "3.10", "slim-bullseye")) == "3.10-slim"
  {
    var image := Target(S6Dockerimage, "slim-jammy", "3.10", "slim-bullseye");
    var test := Target(S6DockerimageTest, "slim-jammy", "3.10", "slim-bullseye");
    var dockerfile := Target(S6Dockerfile, "slim-jammy", "3.10", "slim-bullseye");
    MatrixSlimness();
    SubtagShape(image);
    SubtagShape(test);
    SubtagShape(dockerfile);
    assert "3.10" + "-slim-s6" == "3.10-slim-s6";
    assert "3.10" + "-slim" == "3.10-slim";
  }

  /** jammy / 3.10: the plain image is tagged with the bare Python version. */
  lemma JammySubtagExample()
    ensures Subtag(Target(Dockerimage, "jammy", "3.10", "bullseye")) == "3.10"
  {
    MatrixSlimness();
    assert "3.10" + "" == "3.10";
  }

  /** Two strings without "/" followed by "/" can only be equal when the heads are. */
  lemma {:induction false} SlashSeparated(a: string, b: string, restA: string, restB: string)
    requires '/' !in a && '/' !in b
    requires a + "/" + restA == b + "/" + restB
    ensures a == b && restA == restB
  {
    var s := a + "/" + restA;
    assert forall i :: 0 <= i < |a| ==> s[i] == a[i];
    assert forall i :: 0 <= i < |b| ==> s[i] == b[i];
    assert s[|a|] == '/' && s[|b|] == '/';
    assert |a| == |b|;
    assert a == s[..|a|] == b;
    assert restA == s[|a| + 1..] == restB;
  }

  /** The six suffixes are pairwise distinct and contain no "/". */
  lemma SuffixesDistinct(k1: Kind, k2: Kind)
    requires BasenameSuffix(k1).Some? && BasenameSuffix(k2).Some?
    requires BasenameSuffix(k1) == BasenameSuffix(k2)
    ensures k1 == k2
  {
    var s1 := BasenameSuffix(k1).value;
    match k1
    case Dockerfile =>
      assert s1[0] == 'D' && |s1| == 10;
    case S6Dockerfile =>
      assert s1[0] == 'w' && |s1| == 18;
    case Dockerimage =>
      assert s1[0] == 'D' && |s1| == 11;
    case S6Dockerimage =>
      assert s1[0] == 'w' && |s1| == 19;
    case DockerimageTest =>
      assert s1[0] == 'D' && |s1| == 16;
    case S6DockerimageTest =>
      assert s1[0] == 'w' && |s1| == 24;
  }

  /** `"{}/{}/{}".format(...)` is injective when the first two fields contain no "/". */
  lemma PathOfThreeInjective(p1: string, o1: string, x1: string, p2: string, o2: string, x2: string)
    requires '/' !in p1 && '/' !in o1 && '/' !in p2 && '/' !in o2
    requires p1 + "/" + o1 + "/" + x1 == p2 + "/" + o2 + "/" + x2
    ensures p1 == p2 && o1 == o2 && x1 == x2
  {
    assert p1 + "/" + o1 + "/" + x1 == p1 + "/" + (o1 + "/" + x1);
    assert p2 + "/" + o2 + "/" + x2 == p2 + "/" + (o2 + "/" + x2);
    SlashSeparated(p1, p2, o1 + "/" + x1, o2 + "/" + x2);
    SlashSeparated(o1, o2, x1, x2);
  }

  /**
   * Basenames are injective over (key, kind): when neither axis value
   * contains "/", equal basenames mean the same kind, OS variant and Python version.
   */
  lemma BasenameInjective(t1: Target, t2: Target)
    requires '/' !in t1.pythonVersion && '/' !in t1.osVariant
    requires '/' !in t2.pythonVersion && '/' !in t2.osVariant
    requires Basename(t1).Ok?
    ensures Basename(t1) == Basename(t2) ==>
              t1.kind == t2.kind && t1.osVariant == t2.osVariant && t1.pythonVersion == t2.pythonVersion
  {
    if Basename(t1) == Basename(t2) {
      var s1 := BasenameSuffix(t1.kind).value;
      var s2 := BasenameSuffix(t2.kind).value;
      assert Basename(t1).value == t1.pythonVersion + "/" + t1.osVariant + "/" + s1;
      assert Basename(t2).value == t2.pythonVersion + "/" + t2.osVariant + "/" + s2;
      PathOfThreeInjective(t1.pythonVersion, t1.osVariant, s1, t2.pythonVersion, t2.osVariant, s2);
      SuffixesDistinct(t1.kind, t2.kind);
    }
  }

  /** No axis value of the matrix contains "/". */
  lemma MatrixAxesHaveNoSlash()
    ensures forall osv :: osv in Matrix.OsVariants ==> '/' !in osv
    ensures forall pyv :: pyv in Matrix.PythonVersions ==> '/' !in pyv
  {
  }
}
