/**
 * The deterministic part of `S6DockerfileTargets.build`: the two-tier
 * variable lookup over s6-vars.json and the admonition line put in front of
 * the rendered template. The Jinja2 engine itself is a parameter.
 */
module S6Template {
  import opened Wrappers
  import opened PyStr
  import opened Targets

  /** `ADMONITION` */
  const Admonition: string := "## THIS FILE IS AUTOGENERATED -- DO NOT EDIT"
  /** `S6_TEMPLATE` and `S6_VARS`, the two files every S6 Dockerfile is generated from. */
  const TemplateFile: string := "s6-Dockerfile.jinja2"
  const VarsFile: string := "s6-vars.json"

  /** The parsed vars document: a "global" table and one table per subtag (JSON values kept as strings). */
  type VarsDocument = map<string, map<string, string>>

  /** `collections.ChainMap(first, second)` */
  datatype ChainMap = ChainMap(first: map<string, string>, second: map<string, string>)

  /** The dictionary a ChainMap presents: the union in which the first map's entries win. */
  function Flatten(c: ChainMap): (m: map<string, string>)
    ensures m.Keys == c.first.Keys + c.second.Keys
  {
    c.second + c.first
  }

  /** `key in chain` and `chain[key]`: the first map is searched first, so lookup reads the presented dictionary. */
  function Lookup(c: ChainMap, key: string): (r: Option<string>)
    ensures r == if key in Flatten(c) then Some(Flatten(c)[key]) else None
  {
    if key in c.first then Some(c.first[key])
    else if key in c.second then Some(c.second[key])
    else None
  }

  /** A global value hides the per-subtag one; lookup fails exactly when neither tier has the key. */
  lemma LookupIsFlatten(c: ChainMap, key: string)
    ensures key in c.first ==> Lookup(c, key) == Some(c.first[key])
    ensures key !in c.first && key in c.second ==> Lookup(c, key) == Some(c.second[key])
    ensures Lookup(c, key).None? <==> key !in c.first && key !in c.second
  {
  }

  /** Two chains that agree on every lookup present the same dictionary. */
  lemma SameLookupsSameDictionary(c1: ChainMap, c2: ChainMap)
    requires forall key :: Lookup(c1, key) == Lookup(c2, key)
    ensures Flatten(c1) == Flatten(c2)
  {
    forall key
      ensures key in Flatten(c1) <==> key in Flatten(c2)
      ensures key in Flatten(c1) ==> Flatten(c1)[key] == Flatten(c2)[key]
    {
      assert Lookup(c1, key) == Lookup(c2, key);
    }
  }

  /** `ChainMap(all_vars["global"], all_vars[self.subtag])`: KeyError for whichever tier is missing first. */
  function S6Vars(doc: VarsDocument, t: Target): (r: Result<ChainMap>)
    ensures r.Ok? <==> "global" in doc && Subtag(t) in doc
    ensures "global" !in doc ==> r == Err(KeyError("global"))
    ensures "global" in doc && Subtag(t) !in doc ==> r == Err(KeyError(Subtag(t)))
    ensures r.Ok? ==> r.value.first == doc["global"] && r.value.second == doc[Subtag(t)]
  {
    if "global" !in doc then Err(KeyError("global"))
    else if Subtag(t) !in doc then Err(KeyError(Subtag(t)))
    else Ok(ChainMap(doc["global"], doc[Subtag(t)]))
  }

  /** The S6 Dockerfile target's variables are keyed by the plain subtag, without "-s6". */
  lemma S6VarsKey(osv: string, pyv: string, baseOs: string)
    ensures Subtag(Target(S6Dockerfile, osv, pyv, baseOs)) == if IsSlim(osv) then pyv + "-slim" else pyv
  {
    assert pyv + "" == pyv;
    assert pyv + "-slim" + "" == pyv + "-slim";
  }

  lemma AdmonitionHasNoNewline()
    ensures '\n' !in Admonition
  {
  }

  /**
   * `ADMONITION + "\n" + output`: the admonition becomes the first line and
   * the rendered lines follow unchanged.
   */
  function WithAdmonition(rendered: string): (text: string)
    ensures Split(text, '\n') == [Admonition] + Split(rendered, '\n')
    ensures |text| == |Admonition| + 1 + |rendered| && text[|Admonition| + 1..] == rendered
  {
    AdmonitionHasNoNewline();
    SplitAtFirst(Admonition, '\n', rendered);
    Admonition + "\n" + rendered
  }

  /**
   * The text `S6DockerfileTargets.build` writes, given the template engine as
   * `render` over the dictionary the ChainMap presents (a failure there
   * stands for an undefined variable or a template syntax error under
   * StrictUndefined).
   */
  function RenderS6Dockerfile(doc: VarsDocument, t: Target, render: map<string, string> -> Result<string>): (r: Result<string>)
    ensures S6Vars(doc, t).Err? ==> r == Err(S6Vars(doc, t).error)
    ensures S6Vars(doc, t).Ok? && render(Flatten(S6Vars(doc, t).value)).Err? ==>
      r == render(Flatten(S6Vars(doc, t).value))
    ensures r.Ok? <==> S6Vars(doc, t).Ok? && render(Flatten(S6Vars(doc, t).value)).Ok?
    ensures r.Ok? ==> r.value == WithAdmonition(render(Flatten(S6Vars(doc, t).value)).value)
  {
    match S6Vars(doc, t)
    case Err(e) => Err(e)
    case Ok(vars) =>
      match render(Flatten(vars))
      case Err(e) => Err(e)
      case Ok(output) => Ok(WithAdmonition(output))
  }

  /** The template sees the global value of every key the global tier defines, whatever the subtag's tier says. */
  lemma RenderSeesGlobalFirst(doc: VarsDocument, t: Target, key: string)
    requires S6Vars(doc, t).Ok? && key in doc["global"]
    ensures key in Flatten(S6Vars(doc, t).value)
    ensures Flatten(S6Vars(doc, t).value)[key] == doc["global"][key]
  {
  }

  /** Two vars documents whose chains agree on every lookup generate the same file. */
  lemma RenderDependsOnlyOnLookups(doc1: VarsDocument, doc2: VarsDocument, t: Target,
                                   render: map<string, string> -> Result<string>)
    requires S6Vars(doc1, t).Ok? && S6Vars(doc2, t).Ok?
    requires forall key :: Lookup(S6Vars(doc1, t).value, key) == Lookup(S6Vars(doc2, t).value, key)
    ensures RenderS6Dockerfile(doc1, t, render) == RenderS6Dockerfile(doc2, t, render)
  {
    SameLookupsSameDictionary(S6Vars(doc1, t).value, S6Vars(doc2, t).value);
  }

  /** A generated S6 Dockerfile starts with the admonition line, followed by the rendered text. */
  lemma RenderedFileStartsWithAdmonition(doc: VarsDocument, t: Target, render: map<string, string> -> Result<string>)
    requires RenderS6Dockerfile(doc, t, render).Ok?
    ensures var text := RenderS6Dockerfile(doc, t, render).value;
      && Split(text, '\n')[0] == Admonition
      && |text| > |Admonition| && text[|Admonition| + 1..] == render(Flatten(S6Vars(doc, t).value)).value
  {
  }
}
