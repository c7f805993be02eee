/** The option bag of create-skeleton-app: an object whose keys are option names. Key presence
    is significant on its own (a flag explicitly set to false is still "given"), so options are a
    finite map from the keys present to their values. */
module Options {
  import opened JsValues

  type Opts = map<string, Value>

  /** The keys of a freshly constructed SkeletonOptions. */
  const DefaultKeys: set<string> := {
    "name", "template", "types", "prettier", "eslint", "playwright", "vitest", "inspector",
    "_", "help", "quiet", "path", "forms", "typography", "lineclamp", "skeletontheme",
    "skeletontemplate", "packagemanager", "verbose", "monorepo", "packages", "skeletonui",
    "skeletontemplatedir", "workspace"
  }

  /** The documented default of each SkeletonOptions key. */
  function DefaultValue(k: string): Value
  {
    if k == "name" then JString("new-skel-app")
    else if k == "types" then JString("typescript")
    else if k == "skeletontheme" then JString("skeleton")
    else if k == "skeletontemplate" then JString("bare")
    else if k == "packagemanager" then JString("npm")
    else if k == "path" then JString(".")
    else if k == "template" then JString("skeleton")
    else if k == "skeletontemplatedir" then JString("../templates")
    else if k == "workspace" then JString("")
    else if k == "_" || k == "packages" then JArray([])
    else if k == "prettier" || k == "eslint" || k == "skeletonui" then JBool(true)
    else JBool(false)
  }

  /** `new SkeletonOptions()`: every option with its documented default. */
  function Defaults(): (d: Opts)
    ensures d.Keys == DefaultKeys
    ensures forall k :: k in d ==> d[k] == DefaultValue(k)
  {
    map k | k in DefaultKeys :: DefaultValue(k)
  }

  /** The defaults the generator's behaviour depends on. */
  lemma DefaultChoices()
    ensures Defaults()["name"] == JString("new-skel-app")
    ensures Defaults()["types"] == JString("typescript")
    ensures Defaults()["skeletontheme"] == JString("skeleton")
    ensures Defaults()["skeletontemplate"] == JString("bare")
    ensures Defaults()["packagemanager"] == JString("npm")
  {
  }

  /** `Object.assign(target, source)`: every key of `source` is written onto `target`, so the
      later source wins on a shared key and target keys that `source` lacks survive. */
  function Assign(target: Opts, source: Opts): (r: Opts)
    ensures r.Keys == target.Keys + source.Keys
    ensures forall k :: k in source ==> r[k] == source[k]
    ensures forall k :: k in target && k !in source ==> r[k] == target[k]
  {
    target + source
  }
}
