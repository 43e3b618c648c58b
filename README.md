# dodo.py build matrix — a Dafny model

`dodo.py` describes, for the `doit` task runner, how a family of Python base
images is produced. The build matrix is two OS variants (`jammy`,
`slim-jammy`) by five Python versions (`3.7` … `3.11-rc`). For every key it
emits six kinds of task:

- fetch the upstream docker-library Dockerfile and patch its `FROM` line;
- generate an s6-overlay Dockerfile from a template and a two-tier variable
  document;
- build the plain image and the s6 image;
- run a smoke test and two trivy scans against each image.

It also emits two aggregate "shortcut" tasks per key.

The model covers the deterministic core of that file:

- **`Wrappers`**: `Option`, `Result` and the Python exceptions the core
  raises (`KeyError`, `NotImplementedError`, `AttributeError`, `IndexError`,
  `ValueError`).
- **`PyStr`**: the Python string operations the core relies on. These are
  `in`, `str.replace` (leftmost, non-overlapping, all occurrences),
  `str.split` with a one-character separator, `str.join` and `reversed`. The
  module also proves their round trips and the facts the patch needs.
- **`Matrix`**: the two axes, `source_for_variant`, and `itertools.product`
  (first axis outer).
- **`Targets`**: the `Targets` class and its six subclasses, flattened into a
  `Kind` tag with one resolver per property: `base_os`, `subdir`, `basename`,
  `subtag` and `fulltag`, including the error each raises on a class that
  lacks the attribute.
- **`DockerfilePatch`**: `DockerfileTargets.patch` (the two replacement
  rules, and the ValueError when nothing changes) and the upstream URL that
  `build` fetches.
- **`S6Template`**: the `ChainMap` over the vars document, the KeyError for a
  missing tier, and the admonition line put in front of the rendered
  template. The Jinja2 engine is a parameter.
- **`Tasks`**: the task dictionaries each class yields, as a declarative
  specification over any key sequence. The generators are imperative
  methods with loops proved against it: `CreateDoitTasks` (outer loop) with
  `EmitRow` (inner loop), and `TaskShortcuts`. The module also holds the
  matrix-wide properties: 10 tasks per class, 60 distinct basenames,
  shortcut dependencies that resolve to emitted tasks, and which tasks write
  `:latest`.

Three behaviours of `dodo.py` are worth knowing when reading the model:

- **Variable precedence.** `collections.ChainMap(all_vars["global"],
  all_vars[subtag])` searches the global tier first, so a global value hides
  a per-subtag one (dodo.py:130). The template is rendered from that chain,
  so it sees the global value (`S6Template.RenderSeesGlobalFirst`).
- **File dependencies.** The image→Dockerfile and test→image `file_dep`
  entries are commented out (dodo.py:183, 236, 262). Only the S6 Dockerfile
  task declares file dependencies (`Tasks.TaskFor`).
- **Writers of `:latest`.** Four tasks retag the same
  `registry.internal.telnyx.com/jenkins/python:latest` reference: 3.10 under
  both OS variants, in both image classes (`Tasks.MatrixLatestWriters`).

## Model

| member | source | states |
|---|---|---|
| PyStr.Contains | dodo.py:56 | `pat in s`: the empty pattern is in every string, and an occurring pattern is no longer than the string |
| PyStr.ContainsIffOccurs | dodo.py:56 | `pat in s` holds exactly when `pat` occurs at some index of `s` |
| PyStr.ContainsChar | dodo.py:56 | if `s` contains `pat`, every character of `pat` is in `s` (so "jammy" does not contain "slim") |
| PyStr.ReplaceAll | dodo.py:70-80 | `s.replace(pat, rep)` leaves a text without the pattern unchanged |
| PyStr.ReplaceBySelf | dodo.py:70-80 | replacing a pattern by itself changes nothing |
| PyStr.ReplaceLength | dodo.py:70-80 | a replacement no shorter (no longer) than the pattern never shortens (lengthens) the text |
| PyStr.ReplacePresent | dodo.py:70-80 | when the pattern occurs and the replacement differs from it, the text changes |
| PyStr.ReplaceUnchangedIff | dodo.py:70-84 | `s.replace(pat, rep) == s` exactly when `pat` does not occur or `rep == pat`, which is the condition for patch's ValueError |
| PyStr.ReplaceLeftmost | dodo.py:70-80 | the first occurrence after a pattern-free stretch is replaced and scanning resumes after it (leftmost, non-overlapping) |
| PyStr.NoStartCharNotContains | dodo.py:70-80 | a prefix without the pattern's first character adds no occurrence |
| PyStr.ReplaceKeepsCleanPrefix | dodo.py:70-80 | when the replacement starts like the pattern, the output starts with a string that avoids that character only if the input did |
| PyStr.NoPatternAfterReplacement | dodo.py:70-80 | under a self-clearing rule, a replacement followed by a pattern-free rest has no occurrence |
| PyStr.NoPatternAfterCopy | dodo.py:70-80 | under a self-clearing rule, a copied character followed by a pattern-free rest has no occurrence |
| PyStr.ReplaceLeavesNoPattern | dodo.py:70-80 | under a self-clearing rule, no occurrence of the pattern survives `str.replace` |
| PyStr.Split | dodo.py:71 | `str.split(sep)` always returns at least one part |
| PyStr.SplitPartsAvoidSep | dodo.py:71 | no part returned by `split` contains the separator |
| PyStr.Join | dodo.py:71 | `sep.join(parts)` starts with the first part; over separator-free parts it holds the separator exactly when there are two parts or more |
| PyStr.JoinSplit | dodo.py:71 | `sep.join(s.split(sep)) == s` |
| PyStr.SplitJoin | dodo.py:71 | splitting a join of separator-free parts (at least one) gives the parts back |
| PyStr.SplitNoSep | dodo.py:71 | a string without the separator splits into itself alone |
| PyStr.SplitAtFirst | dodo.py:179 | `(a + sep + b).split(sep)` is `[a]` followed by `b.split(sep)` when `a` has no separator |
| PyStr.SplitTwo | dodo.py:71-74 | `(a + sep + b).split(sep) == [a, b]` for separator-free `a`, `b` |
| PyStr.JoinTwo | dodo.py:71 | `sep.join([a, b]) == a + sep + b` |
| PyStr.Reverse | dodo.py:71 | `reversed` keeps the length and puts element `i` at position `len - 1 - i` |
| Matrix.Product | dodo.py:105 | `itertools.product(xs, ys)` is empty exactly when one of the axes is |
| Matrix.ProductLength | dodo.py:105 | the product has `len(xs) * len(ys)` pairs |
| Matrix.ProductAt | dodo.py:105 | pair `i * len(ys) + j` is `(xs[i], ys[j])`, so the OS variant is the outer loop |
| Matrix.ProductMembers | dodo.py:105 | every pair takes its components from the two axes |
| Matrix.ProductDistinct | dodo.py:105 | axes without repeats give a product without repeats |
| Matrix.ProductPrefix | dodo.py:105 | the product over a prefix of the first axis is a prefix of the whole product |
| Matrix.ProductStep | dodo.py:105 | one more OS variant appends its row |
| Matrix.RowStep | dodo.py:105 | one more Python version appends its pair to the row |
| Matrix.MatrixKeysDistinct | dodo.py:26-27 | the declared matrix has 10 pairwise distinct keys |
| Matrix.MatrixKeys | dodo.py:26-27 | the 10 keys in visiting order: all versions of "jammy", then all of "slim-jammy" |
| Targets.MakeTarget | dodo.py:36-39 | constructing a target succeeds exactly for an OS variant in `source_for_variant` (else KeyError of that variant) and records the looked-up `base_os` |
| Targets.Subdir | dodo.py:43-45 | `subdir` names the Python version and then the OS variant: splitting it on "/" gives them back when neither holds a "/" |
| Targets.BasenameSuffix | dodo.py:34 | `basename_suffix` is None exactly on the base class; the six subclass values (dodo.py:66, 114, 149, 189, 242, 268) are non-empty and hold no "/" |
| Targets.Basename | dodo.py:47-51 | `basename` raises NotImplementedError exactly on the base class |
| Targets.Subtag | dodo.py:53-58 | `subtag` starts with the Python version, and ends with "-s6" for the two S6 image kinds (dodo.py:196-198, 270-272) |
| Targets.Fulltag | dodo.py:60-62 | `fulltag` exists exactly on the four image and test classes (AttributeError `image_namespace` otherwise) |
| Targets.SubtagShape | dodo.py:53-58 | subtag is `pyv`, plus "-slim" for slim variants, plus "-s6" for the two S6 image kinds (dodo.py:196-198, 270-272) |
| Targets.MatrixSlimness | dodo.py:56 | "jammy" is not slim and "slim-jammy" is |
| Targets.SubtagExamples | dodo.py:53-58 | slim-jammy/3.10 gives "3.10-slim-s6" for the S6 image and test kinds and "3.10-slim" for the S6 Dockerfile kind |
| Targets.JammySubtagExample | dodo.py:53-58 | jammy/3.10 gives the bare "3.10" for the plain image |
| Targets.SlashSeparated | dodo.py:44-45 | "a/rest" determines `a` and `rest` when `a` has no "/" |
| Targets.SuffixesDistinct | dodo.py:66 | the six `basename_suffix` values (dodo.py:66, 114, 149, 189, 242, 268) are pairwise distinct |
| Targets.PathOfThreeInjective | dodo.py:44-51 | "p/o/x" determines p, o and x when p and o have no "/" |
| Targets.BasenameInjective | dodo.py:44-51 | equal basenames mean the same class, OS variant and Python version, given slash-free axes |
| Targets.MatrixAxesHaveNoSlash | dodo.py:26-27 | no axis value contains "/" |
| DockerfilePatch.SourceUrl | dodo.py:87-90 | the fetched URL lies under the docker-library python master tree, and below it the path splits on "/" into the Python version, the upstream source and "Dockerfile" |
| DockerfilePatch.DebianTag | dodo.py:71 | `"-".join(reversed(base_os.split("-")))` has the hyphen-separated words of `base_os` in reverse order |
| DockerfilePatch.UbuntuRelease | dodo.py:74 | `osv.split("-")[1]` raises IndexError exactly when the variant has fewer than two parts |
| DockerfilePatch.PatchRule | dodo.py:69-80 | the rule fails (IndexError) exactly for a slim variant without a hyphen; the pattern is never empty |
| DockerfilePatch.Patch | dodo.py:68-84 | a successful patch is the full replacement and differs from the input; a rule failure propagates |
| DockerfilePatch.PatchSucceedsIffPatternOccurs | dodo.py:81-84 | with a rule whose two strings differ, patch returns the replacement when the pattern occurs and raises ValueError("FROM target patch failed, no changes.") otherwise |
| DockerfilePatch.SlimJammyRelease | dodo.py:74 | "slim-jammy".split("-")[1] is "jammy" |
| DockerfilePatch.SlimBullseyeDebianTag | dodo.py:71 | "-".join(reversed("slim-bullseye".split("-"))) is "bullseye-slim" |
| DockerfilePatch.RuleStrings | dodo.py:71-80 | the formatted patterns and replacements of both matrix variants |
| DockerfilePatch.JammyPatchRule | dodo.py:77-80 | a jammy target replaces "FROM buildpack-deps:bullseye" by "FROM buildpack-deps:jammy" |
| DockerfilePatch.SlimPatchRule | dodo.py:70-76 | a slim target replaces "FROM debian:<reversed base_os>" by "FROM ubuntu:<release>" |
| DockerfilePatch.SlimJammyPatchRule | dodo.py:70-76 | a slim-jammy target replaces "FROM debian:bullseye-slim" by "FROM ubuntu:jammy" |
| DockerfilePatch.MatrixPatchRules | dodo.py:69-80 | the rules of the two matrix variants, for every kind and Python version |
| DockerfilePatch.RuleTails | dodo.py:71-80 | the characters after "F" of the four rule strings |
| DockerfilePatch.RuleTailsAvoidF | dodo.py:71-80 | "F" occurs in no rule string after its first character |
| DockerfilePatch.RulePrefixes | dodo.py:71-80 | neither string of a rule is a prefix of the other |
| DockerfilePatch.MatrixRulesSelfClearing | dodo.py:69-80 | both matrix rules leave no occurrence of their pattern behind |
| DockerfilePatch.MatrixPatchFailsIffAbsent | dodo.py:81-84 | for a matrix target, patch raises ValueError exactly when the pattern is absent from the upstream text |
| DockerfilePatch.MatrixRepatchFails | dodo.py:68-84 | patching an already patched Dockerfile raises ValueError |
| DockerfilePatch.ReplaceIntroduces | dodo.py:70-80 | a text that held the pattern holds the replacement afterwards |
| DockerfilePatch.MatrixPatchExamples | dodo.py:69-80 | a jammy or slim-jammy Dockerfile with the upstream FROM line is patched to the Ubuntu FROM line |
| S6Template.Flatten | dodo.py:130 | the mapping a ChainMap presents has the keys of both tiers |
| S6Template.Lookup | dodo.py:130 | a ChainMap lookup reads the presented mapping: present exactly when some tier has the key |
| S6Template.LookupIsFlatten | dodo.py:130 | a key in the global tier yields the global value, otherwise the subtag tier's; lookup fails exactly when neither tier has the key |
| S6Template.SameLookupsSameDictionary | dodo.py:130 | two chains that agree on every lookup present the same mapping |
| S6Template.S6Vars | dodo.py:130 | KeyError("global") without a global tier, else KeyError(subtag) without the subtag's tier, else the chain (global, per-subtag) |
| S6Template.S6VarsKey | dodo.py:130 | the vars of an S6 Dockerfile are keyed by the plain subtag (`pyv` or `pyv-slim`, no "-s6") |
| S6Template.AdmonitionHasNoNewline | dodo.py:15 | the admonition is a single line |
| S6Template.WithAdmonition | dodo.py:140 | the admonition becomes the first line and the rendered lines follow unchanged |
| S6Template.RenderS6Dockerfile | dodo.py:126-143 | the generated text is the admonition plus the rendering of the mapping the chain presents; a vars KeyError or a rendering error propagates |
| S6Template.RenderSeesGlobalFirst | dodo.py:130-138 | the template sees the global value of every key the global tier defines |
| S6Template.RenderDependsOnlyOnLookups | dodo.py:130-140 | two vars documents whose chains agree on every lookup generate the same file |
| S6Template.RenderedFileStartsWithAdmonition | dodo.py:138-140 | a generated S6 Dockerfile's first line is the admonition, and the rendered text follows it |
| Tasks.TagLatest | dodo.py:174-180 | the "docker tag" action exists exactly for Python 3.10 and aliases the full tag as `…/python:latest` (dodo.py:227-233) |
| Tasks.DockerimageBuild | dodo.py:162-173 | the plain image build is `docker build`, pulls the base, tags the full tag, writes the id file named by the basename, and builds the key's directory |
| Tasks.S6DockerimageBuild | dodo.py:204-225 | the S6 image build is `docker build` from the same key's S6 Dockerfile, with the full tag and the id file, ending with the build context |
| Tasks.Scan | dodo.py:253-258 | a trivy command scans the image with the given severity and exit code, through the remote server under CI and locally otherwise |
| Tasks.TestCommands | dodo.py:255-259 | the three test commands: `docker run --rm` of the full tag, then the HIGH scan with exit code 0 and the CRITICAL scan with exit code 1 |
| Tasks.TaskFor | dodo.py:103-264 | every target task is named by its basename, declares no task_dep, and declares file_dep (the template and the vars file) exactly for the S6 Dockerfile kind |
| Tasks.RepositoryHasNoColon | dodo.py:18 | the registry path before the tag has no ":" |
| Tasks.LatestTagIsRepository | dodo.py:179 | `fulltag.split(":")[0] + ":latest"` is `registry.internal.telnyx.com/jenkins/python:latest` for every image |
| Tasks.BuildCommandOptions | dodo.py:162-173 | both image builds run `docker build` with `--tag` fulltag and `--iidfile` basename (dodo.py:204-225) |
| Tasks.ImageTaskActions | dodo.py:162-180 | an image task has one build action, plus `docker tag fulltag …:latest` exactly when `pyv == "3.10"` (dodo.py:227-233) |
| Tasks.DockerimageBuildsSubdir | dodo.py:162-173 | the plain image build pulls the base and uses the key's directory as context |
| Tasks.HasOptionInside | dodo.py:204-225 | an option in a segment of an argument vector is an option of the whole vector |
| Tasks.S6BuildArgsOptions | dodo.py:214-219 | the build-args carry BUILD_DATE, BUILD_URL and BUILD_NUMBER |
| Tasks.S6DockerimageBuildsGeneratedFile | dodo.py:204-225 | the S6 image build uses `--file` with the same key's S6 Dockerfile basename, passes the build metadata, and ends with the build context |
| Tasks.ScanShape | dodo.py:253-258 | a scan is `trivy`, then `client --remote http://trivy.query.consul` under CI or `image` otherwise, then `--severity S --exit-code E image`; `--remote` appears exactly under CI |
| Tasks.TestTaskActions | dodo.py:253-259 | a test task runs exactly: the smoke run, the HIGH scan with exit code 0, then the CRITICAL scan with exit code 1, all on fulltag, each scan with the CI or local trivy prefix and `--remote` exactly when BUILD_URL is set |
| Tasks.TestsUseBuiltImage | dodo.py:241-272 | each test class checks the image reference its image class tags, and the plain and S6 references differ |
| Tasks.FirstUnknown | dodo.py:39 | the first key whose OS variant has no source: unknown itself, all earlier keys known |
| Tasks.EmitTasks | dodo.py:103-110 | a generator succeeds exactly when every key's OS variant is known, with one task per key; otherwise it raises KeyError of an OS variant that has no source |
| Tasks.TasksForStep | dodo.py:105-110 | one more known key appends its task |
| Tasks.EmitPrefixErr | dodo.py:39 | once a prefix of the keys raises KeyError, the whole generator raises the same one |
| Tasks.RowUnknownVariant | dodo.py:39 | a row whose OS variant is unknown raises KeyError of that variant |
| Tasks.RowKnownStep | dodo.py:105-110 | a row whose OS variant is known yields one task per Python version |
| Tasks.EmitRow | dodo.py:105-110 | the inner loop yields exactly the tasks the specification assigns to the keys so far, or its KeyError |
| Tasks.CreateDoitTasks | dodo.py:103-110 | the generator of every class yields, over `product(os_variants, python_versions)`, exactly what `EmitTasks` specifies: one task per key in order, or KeyError of an unknown OS variant (dodo.py:117-124, 158-185, 200-238, 248-264) |
| Tasks.EmitOverAxes | dodo.py:36-39 | emission succeeds exactly when every OS variant is known or there is no Python version |
| Tasks.MatrixVariantsKnown | dodo.py:26-32 | every key of the declared matrix has a source, and there are 10 keys |
| Tasks.MatrixTasks | dodo.py:103-110 | over the declared matrix every generator succeeds with 10 tasks |
| Tasks.MatrixTarget | dodo.py:105-106 | the n-th matrix target has OS variant "jammy" for n < 5, else "slim-jammy", and Python version n mod 5 |
| Tasks.MatrixTaskAt | dodo.py:105-110 | the n-th matrix task is the task of the n-th matrix target |
| Tasks.MatrixBasenamesUnique | dodo.py:47-51 | the 60 matrix tasks of the six classes have pairwise distinct basenames |
| Tasks.LatestPosition | dodo.py:27 | only the fourth Python version (3.10) is `latest` |
| Tasks.MatrixLatestWriters | dodo.py:174-180 | in both image classes the matrix tasks at positions 3 and 8 (3.10 under both OS variants) are exactly the ones that retag `…/python:latest` (dodo.py:227-233) |
| Tasks.ShortcutPair | dodo.py:276-295 | one key's two shortcuts: both carry task dependencies (four and two), and the test shortcut is named "test-" plus the build shortcut's name |
| Tasks.Shortcuts | dodo.py:275-295 | `task_shortcuts` yields two tasks per key |
| Tasks.ShortcutsStep | dodo.py:276-295 | one more key appends its two shortcut tasks |
| Tasks.TaskShortcuts | dodo.py:275-295 | `task_shortcuts` yields, over the product, the two shortcut tasks of each key in order |
| Tasks.ShortcutsAt | dodo.py:275-295 | the shortcuts of key n are at positions 2n and 2n+1 |
| Tasks.ShortcutDepsAreBasenames | dodo.py:277-295 | the build shortcut depends on exactly the four build-kind basenames, the test shortcut on exactly the two test basenames; neither has actions |
| Tasks.MatrixBasenameAt | dodo.py:105-110 | the basename of the n-th matrix task of a class |
| Tasks.ShortcutsResolveAt | dodo.py:275-295 | over any keys with known OS variants, the shortcuts of key n depend on the n-th task of each build class and of each test class |
| Tasks.MatrixShortcutsResolve | dodo.py:275-295 | every shortcut dependency of the matrix names a task the six generators emit |
| Tasks.SlashesConcat | dodo.py:44-51 | slash counts add up over concatenation |
| Tasks.SlashesJoin | dodo.py:44-51 | joining with "/" adds one slash |
| Tasks.SubdirSlashes | dodo.py:43-45 | `subdir` has one slash for slash-free axes |
| Tasks.NoSlashes | dodo.py:44-51 | a string has slash count 0 exactly when it has no "/" |
| Tasks.ShortcutNameSlashes | dodo.py:276-286 | shortcut names have one slash |
| Tasks.BasenameSlashes | dodo.py:47-51 | target basenames have two slashes |
| Tasks.ShortcutNamesAreNotTargets | dodo.py:275-295 | no shortcut is named like a target task |
| Tasks.ShortcutNamesInjective | dodo.py:275-295 | a shortcut name determines its key and whether it is the test shortcut |
| Tasks.PythonVersionsStartWithDigit | dodo.py:27 | every matrix Python version starts with "3" |
| Tasks.ShortcutNamesUniqueOver | dodo.py:275-295 | over axes without repeats, slashes or a leading "t", all shortcut names are distinct |
| Tasks.MatrixAxesDistinct | dodo.py:26-27 | neither axis repeats a value |
| Tasks.MatrixShortcutNamesUnique | dodo.py:275-295 | the 20 shortcut tasks of the matrix have distinct names |

## Left out

- The HTTP fetch in `DockerfileTargets.build` (`requests.get`, `raise_for_status`, dodo.py:94-95). The fetched text is the `original` input of `Patch`.
- Filesystem effects: `mkdir`, writing the patched and generated Dockerfiles, reading `s6-vars.json`, and the `REPO_ROOT` prefix of `target_dir`. `target_dir` is modelled as the `subdir` string.
- The Jinja2 engine (template loading, StrictUndefined, `keep_trailing_newline`). It is the `render` parameter of `S6Template.RenderS6Dockerfile`, applied to the mapping the ChainMap presents; its failure stands for an undefined variable.
- JSON decoding. The vars document is a map of string-valued maps, so non-string JSON values are not distinguished.
- The values of BUILD_URL, BUILD_DATE and BUILD_NUMBER, which come from the environment, clock and hostname (dodo.py:20-22). They are opaque strings in `Tasks.BuildInfo`. `"BUILD_URL" in os.environ` is the boolean `Tasks.Environment.inCi`.
- Running docker and trivy, and doit's own scheduling and up-to-date checks. An action is an argument vector, or `Build(target)` for the bound `build` method.
- Tasks.CreateDoitTasks: a generator that raises part-way has already handed its earlier tasks to doit. The model returns only the KeyError in that case.
- PyStr.ReplaceAll: an empty pattern is not modelled (it requires a non-empty pattern). Every pattern `patch` builds has a non-empty "FROM …" prefix.
- Python versions are axis strings only. The model does not interpret them as numbers.
