/** The generator proper: the install directory name, the package manager and dev-dependency
    list of createSkeleton, and the text of the configuration files and the root layout it
    writes. */
module Creator {
  import opened JsValues
  import opened Options

  // ---------------------------------------------------------------------------------------
  // The install directory

  /** `s.replace(/\s+/g, '-')`: every maximal run of whitespace becomes one `-`. */
  function CollapseSpaces(s: string): (r: string)
    decreases |s|
  {
    if s == [] then []
    else if IsJsSpace(s[0]) then "-" + CollapseSpaces(TrimStart(s))
    else [s[0]] + CollapseSpaces(s[1..])
  }

  /** The directory name made from the project name: whitespace runs collapsed to `-`, then
      lower-cased. */
  function Slug(name: string): string
  {
    Lower(CollapseSpaces(name))
  }

  predicate NoSpaces(s: string)
  {
    forall i :: 0 <= i < |s| ==> !IsJsSpace(s[i])
  }

  lemma {:induction false} CollapseSpacesNoSpaces(s: string)
    ensures NoSpaces(CollapseSpaces(s))
    decreases |s|
  {
    if s != [] {
      if IsJsSpace(s[0]) {
        CollapseSpacesNoSpaces(TrimStart(s));
        assert CollapseSpaces(s) == "-" + CollapseSpaces(TrimStart(s));
      } else {
        CollapseSpacesNoSpaces(s[1..]);
        assert CollapseSpaces(s) == [s[0]] + CollapseSpaces(s[1..]);
      }
    }
  }

  /** Text without whitespace is left as it is. */
  lemma {:induction false} CollapseSpacesIdentity(s: string)
    requires NoSpaces(s)
    ensures CollapseSpaces(s) == s
  {
    if s != [] {
      assert !IsJsSpace(s[0]);
      assert NoSpaces(s[1..]) by {
        forall i | 0 <= i < |s[1..]| ensures !IsJsSpace(s[1..][i]) {
          assert s[1..][i] == s[i + 1];
        }
      }
      CollapseSpacesIdentity(s[1..]);
      assert s == [s[0]] + s[1..];
    }
  }

  lemma LowerNoSpaces(s: string)
    requires NoSpaces(s)
    ensures NoSpaces(Lower(s))
  {
    forall i | 0 <= i < |s| ensures !IsJsSpace(Lower(s)[i]) {
      assert !IsJsSpace(s[i]);
    }
  }

  /** The slug contains no whitespace. */
  lemma SlugNoSpaces(name: string)
    ensures NoSpaces(Slug(name))
  {
    CollapseSpacesNoSpaces(name);
    LowerNoSpaces(CollapseSpaces(name));
  }

  /** Normalising a name twice gives the same directory name as normalising it once. */
  lemma SlugIdempotent(name: string)
    ensures Slug(Slug(name)) == Slug(name)
  {
    SlugNoSpaces(name);
    CollapseSpacesIdentity(Slug(name));
    LowerIdempotent(CollapseSpaces(name));
  }

  /** A name without whitespace is only lower-cased. */
  lemma SlugOfWord(name: string)
    requires NoSpaces(name)
    ensures Slug(name) == Lower(name)
  {
    CollapseSpacesIdentity(name);
  }

  /** `path.resolve(base, slug)`, kept as an abstract join of the two. */
  function InstallPath(base: string, slug: string): string
  {
    base + "/" + slug
  }

  // ---------------------------------------------------------------------------------------
  // Package manager and dev dependencies

  /** `whichPMRuns()?.name || 'npm'`: the package manager that launched the generator, when it
      reports a non-empty name. */
  function PackageManager(runner: Option<string>): (r: string)
    ensures r != ""
    ensures runner.Some? && runner.value != "" ==> r == runner.value
    ensures runner.None? || runner.value == "" ==> r == "npm"
  {
    if runner.Some? && runner.value != "" then runner.value else "npm"
  }

  const BasePackages: seq<string> := ["postcss", "autoprefixer", "tailwindcss", "svelte-preprocess", "@skeletonlabs/skeleton"]

  /** `[pkg]` when `opts?.k` is truthy. */
  function IfTruthy(opts: Opts, k: string, pkg: string): seq<string>
  {
    if KeyTruthy(opts, k) then [pkg] else []
  }

  /** The dev dependencies createSkeleton installs, in install order. */
  function DevDependencies(opts: Opts): seq<string>
  {
    BasePackages
    + IfTruthy(opts, "prettier", "prettier-plugin-tailwindcss")
    + IfTruthy(opts, "typography", "@tailwindcss/typography")
    + IfTruthy(opts, "forms", "@tailwindcss/forms")
    + IfTruthy(opts, "lineclamp", "@tailwindcss/line-clamp")
  }

  function Count(b: bool): nat
  {
    if b then 1 else 0
  }

  /** The five base packages come first, in their fixed order, and one package follows for
      each truthy flag. */
  lemma DevDependenciesShape(opts: Opts)
    ensures DevDependencies(opts)[..5] == BasePackages
    ensures |DevDependencies(opts)| == 5 + Count(KeyTruthy(opts, "prettier")) + Count(KeyTruthy(opts, "typography"))
      + Count(KeyTruthy(opts, "forms")) + Count(KeyTruthy(opts, "lineclamp"))
  {
  }

  /** Each optional package is installed exactly when its flag is truthy. */
  lemma DevDependenciesMembers(opts: Opts)
    ensures "prettier-plugin-tailwindcss" in DevDependencies(opts) <==> KeyTruthy(opts, "prettier")
    ensures "@tailwindcss/typography" in DevDependencies(opts) <==> KeyTruthy(opts, "typography")
    ensures "@tailwindcss/forms" in DevDependencies(opts) <==> KeyTruthy(opts, "forms")
    ensures "@tailwindcss/line-clamp" in DevDependencies(opts) <==> KeyTruthy(opts, "lineclamp")
  {
  }

  // ---------------------------------------------------------------------------------------
  // createSkeleton

  /** Why createSkeleton stops: `opts.name.replace` on a name that is not a string, and
      `path.resolve` on a path that is not a string, throw a TypeError; an install directory
      that exists and is not empty ends the process. */
  datatype Failure = NameNotString | PathNotString | DirectoryNotEmpty

  datatype Result<T> = Ok(value: T) | Err(failure: Failure)

  /** What createSkeleton has settled once the base install is made: the options with the
      install path and package manager filled in, the dev dependencies, and the install
      command line. */
  datatype Setup = Setup(opts: Opts, packages: seq<string>, command: seq<string>)

  /** The start of createSkeleton, up to the package install. `runner` is what whichPMRuns
      reports; `targetNonEmpty` whether the install directory already holds files. */
  method CreateSkeleton(opts: Opts, runner: Option<string>, targetNonEmpty: bool) returns (r: Result<Setup>)
    ensures !("name" in opts && opts["name"].JString?) ==> r == Err(NameNotString)
    ensures "name" in opts && opts["name"].JString? && !("path" in opts && opts["path"].JString?) ==>
      r == Err(PathNotString)
    ensures "name" in opts && opts["name"].JString? && "path" in opts && opts["path"].JString? && targetNonEmpty ==>
      r == Err(DirectoryNotEmpty)
    ensures r.Ok? <==> "name" in opts && opts["name"].JString? && "path" in opts && opts["path"].JString? && !targetNonEmpty
    ensures r.Ok? ==>
      r.value.opts == opts["path" := JString(InstallPath(opts["path"].s, Slug(opts["name"].s)))]["packagemanager" := JString(PackageManager(runner))]
    ensures r.Ok? ==> r.value.packages == DevDependencies(opts)
    ensures r.Ok? ==> r.value.command == [PackageManager(runner), "add", "-D"] + DevDependencies(opts)
  {
    if !("name" in opts && opts["name"].JString?) {
      return Err(NameNotString);
    }
    if !("path" in opts && opts["path"].JString?) {
      return Err(PathNotString);
    }
    var current := opts["path" := JString(InstallPath(opts["path"].s, Slug(opts["name"].s)))];
    if targetNonEmpty {
      return Err(DirectoryNotEmpty);
    }
    current := current["packagemanager" := JString(PackageManager(runner))];
    var packages := CollectDevDependencies(current);
    SettledFlags(opts, current);
    r := Ok(Setup(current, packages, [current["packagemanager"].s, "add", "-D"] + packages));
  }

  /** The package list createSkeleton builds up, flag by flag. */
  method CollectDevDependencies(opts: Opts) returns (packages: seq<string>)
    ensures packages == DevDependencies(opts)
  {
    packages := BasePackages;
    if KeyTruthy(opts, "prettier") {
      packages := packages + ["prettier-plugin-tailwindcss"];
    }
    if KeyTruthy(opts, "typography") {
      packages := packages + ["@tailwindcss/typography"];
    }
    if KeyTruthy(opts, "forms") {
      packages := packages + ["@tailwindcss/forms"];
    }
    if KeyTruthy(opts, "lineclamp") {
      packages := packages + ["@tailwindcss/line-clamp"];
    }
  }

  /** Filling in the install path and the package manager leaves the plugin flags, and so the
      dev dependencies, as they were. */
  lemma SettledFlags(opts: Opts, settled: Opts)
    requires forall k :: k != "path" && k != "packagemanager" ==> (k in settled <==> k in opts)
    requires forall k :: k != "path" && k != "packagemanager" && k in opts ==> settled[k] == opts[k]
    ensures DevDependencies(settled) == DevDependencies(opts)
  {
    assert KeyTruthy(settled, "prettier") == KeyTruthy(opts, "prettier");
    assert KeyTruthy(settled, "typography") == KeyTruthy(opts, "typography");
    assert KeyTruthy(settled, "forms") == KeyTruthy(opts, "forms");
    assert KeyTruthy(settled, "lineclamp") == KeyTruthy(opts, "lineclamp");
  }

  // ---------------------------------------------------------------------------------------
  // svelte.config.js

  const SvelteHead: string :=
    "import adapter from '@sveltejs/adapter-auto';\nimport preprocess from \"svelte-preprocess\";\n\n"
    + "/** @type {import('@sveltejs/kit').Config} */\nconst config = {\n\tkit: {\n\t\tadapter: adapter()\n\t},\n"
    + "\tpreprocess: [\n\t\tpreprocess({\n\t\t\tpostcss: true,\n\t\t}),\n\t],"

  const InspectorBlock: string :=
    "\n\tvitePlugin: {\n\t\texperimental: {\n\t\t\tinspector: {\n\t\t\t\tholdMode: true,\n\t\t\t}\n\t\t}\n\t}\t\t\n"

  const SvelteTail: string := "\n};\n\nexport default config;\n"

  /** createSvelteConfig: the inspector block is spliced in when `opts.inspector == true`. */
  function SvelteConfig(opts: Opts): string
  {
    SvelteHead + (if KeyLooselyTrue(opts, "inspector") then InspectorBlock else "") + SvelteTail
  }

  /** With `inspector == true` the inspector block sits right after the head of the svelte
      config, and cutting it out leaves the config generated without it. */
  lemma SvelteConfigInspector(opts: Opts)
    requires KeyLooselyTrue(opts, "inspector")
    ensures SvelteConfig(opts)[|SvelteHead|..|SvelteHead| + |InspectorBlock|] == InspectorBlock
    ensures SvelteConfig(opts)[..|SvelteHead|] + SvelteConfig(opts)[|SvelteHead| + |InspectorBlock|..]
      == SvelteConfig(map[])
  {
    assert SvelteConfig(map[]) == SvelteHead + SvelteTail by {
      assert !KeyLooselyTrue(map[], "inspector");
    }
    Pieces(SvelteConfig(opts), SvelteHead, InspectorBlock, SvelteTail);
  }

  /** Without `inspector == true` the svelte config is the one generated without the block. */
  lemma SvelteConfigNoInspector(opts: Opts)
    requires !KeyLooselyTrue(opts, "inspector")
    ensures SvelteConfig(opts) == SvelteConfig(map[])
  {
    assert !KeyLooselyTrue(map[], "inspector");
  }

  // ---------------------------------------------------------------------------------------
  // tailwind.config.cjs

  const ThemePlugin: string := "require('@skeletonlabs/skeleton/tailwind/theme.cjs')"
  const FormsPlugin: string := "require('@tailwindcss/forms')"
  const TypographyPlugin: string := "require('@tailwindcss/typography')"
  const LineClampPlugin: string := "require('@tailwindcss/line-clamp')"

  /** `[entry]` when `opts.k == true`. */
  function IfTrue(opts: Opts, k: string, entry: string): seq<string>
  {
    if KeyLooselyTrue(opts, k) then [entry] else []
  }

  /** The plugins entries of the tailwind config, in order. */
  function TailwindPlugins(opts: Opts): seq<string>
  {
    IfTrue(opts, "forms", FormsPlugin) + IfTrue(opts, "typography", TypographyPlugin)
    + IfTrue(opts, "lineclamp", LineClampPlugin) + [ThemePlugin]
  }

  /** No entry contains a comma. */
  predicate NoCommas(items: seq<string>)
  {
    forall i :: 0 <= i < |items| ==> ',' !in items[i]
  }

  /** String.prototype.split(','): the runs between commas, in order. */
  function SplitComma(s: string): (r: seq<string>)
    ensures |r| >= 1
    decreases |s|
  {
    var k := FindEither(s, ',', ',');
    if k == |s| then [s] else [s[..k]] + SplitComma(s[k + 1..])
  }

  /** Splitting a text with no comma gives the text alone, and a leading comma-free entry
      followed by a comma splits off as the first piece. */
  lemma SplitFirst(a: string, rest: string)
    ensures ',' !in a ==> SplitComma(a) == [a]
    ensures ',' !in a ==> SplitComma(a + "," + rest) == [a] + SplitComma(rest)
  {
    if ',' in a {
      return;
    }
    assert forall i :: 0 <= i < |a| ==> a[i] != ',';
    var s := a + "," + rest;
    assert forall i :: 0 <= i < |a| ==> s[i] == a[i];
    assert s[|a|] == ',';
    var j := FindEither(s, ',', ',');
    assert j == |a|;
    assert s[..j] == a;
    assert s[j + 1..] == rest;
  }

  /** Array.prototype.join(',') on strings: split at the commas again, entries that hold no
      comma come back one by one, in order (and the empty list joins to ""). */
  function JoinComma(items: seq<string>): (r: string)
    ensures items == [] ==> r == ""
    ensures NoCommas(items) ==> SplitComma(r) == if items == [] then [""] else items
  {
    if items == [] then ""
    else if |items| == 1 then
      SplitFirst(items[0], "");
      items[0]
    else
      var rest := JoinComma(items[1..]);
      SplitFirst(items[0], rest);
      assert items == [items[0]] + items[1..];
      items[0] + "," + rest
  }

  const TailwindHead: string :=
    "/** @type {import('tailwindcss').Config} */\nmodule.exports = {\n\tdarkMode: 'class',\n"
    + "\tcontent: ['./src/**/*.{html,js,svelte,ts}', require('path').join(require.resolve('@skeletonlabs/skeleton'), '../**/*.{html,js,svelte,ts}')],\n"
    + "\ttheme: {\n\t\textend: {},\n\t},\n\tplugins: ["

  const TailwindTail: string := "],\n}\n"

  /** The text createTailwindConfig returns. */
  function TailwindConfig(opts: Opts): string
  {
    TailwindHead + JoinComma(TailwindPlugins(opts)) + TailwindTail
  }

  /** createTailwindConfig: collects the plugin entries, then fills the template. */
  method CreateTailwindConfig(opts: Opts) returns (str: string)
    ensures str == TailwindConfig(opts)
  {
    var plugins := [];
    if KeyLooselyTrue(opts, "forms") {
      plugins := plugins + [FormsPlugin];
    }
    assert plugins == IfTrue(opts, "forms", FormsPlugin);
    if KeyLooselyTrue(opts, "typography") {
      plugins := plugins + [TypographyPlugin];
    }
    assert plugins == IfTrue(opts, "forms", FormsPlugin) + IfTrue(opts, "typography", TypographyPlugin);
    if KeyLooselyTrue(opts, "lineclamp") {
      plugins := plugins + [LineClampPlugin];
    }
    assert plugins + [ThemePlugin] == TailwindPlugins(opts);
    plugins := plugins + [ThemePlugin];
    str := TailwindHead + JoinComma(plugins) + TailwindTail;
  }

  /** The skeleton theme plugin is always present and always last; each Tailwind plugin is
      present exactly when its option is `== true`. */
  lemma TailwindPluginsShape(opts: Opts)
    ensures |TailwindPlugins(opts)| == 1 + Count(KeyLooselyTrue(opts, "forms"))
      + Count(KeyLooselyTrue(opts, "typography")) + Count(KeyLooselyTrue(opts, "lineclamp"))
    ensures TailwindPlugins(opts)[|TailwindPlugins(opts)| - 1] == ThemePlugin
    ensures FormsPlugin in TailwindPlugins(opts) <==> KeyLooselyTrue(opts, "forms")
    ensures TypographyPlugin in TailwindPlugins(opts) <==> KeyLooselyTrue(opts, "typography")
    ensures LineClampPlugin in TailwindPlugins(opts) <==> KeyLooselyTrue(opts, "lineclamp")
  {
  }

  /** No plugin entry holds a comma. */
  lemma EntriesHoldNoComma()
    ensures ',' !in FormsPlugin && ',' !in TypographyPlugin
    ensures ',' !in LineClampPlugin && ',' !in ThemePlugin
  {
    NoComma(FormsPlugin);
    NoComma(TypographyPlugin);
    NoComma(LineClampPlugin);
    NoComma(ThemePlugin);
  }

  /** A text without a comma among its characters holds no comma. */
  lemma NoComma(s: string)
    requires forall i :: 0 <= i < |s| ==> s[i] != ','
    ensures ',' !in s
  {
  }

  /** The `plugins: [...]` list of the tailwind config, split at its commas, gives back the
      plugin entries one by one and in order. */
  lemma TailwindConfigPlugins(opts: Opts)
    ensures var n := |TailwindHead|; var m := |JoinComma(TailwindPlugins(opts))|;
      n + m <= |TailwindConfig(opts)| && SplitComma(TailwindConfig(opts)[n..n + m]) == TailwindPlugins(opts)
  {
    var plugins := TailwindPlugins(opts);
    EntriesHoldNoComma();
    assert NoCommas(plugins) by {
      forall i | 0 <= i < |plugins| ensures ',' !in plugins[i] {
        assert plugins[i] in {FormsPlugin, TypographyPlugin, LineClampPlugin, ThemePlugin};
      }
    }
    Pieces(TailwindConfig(opts), TailwindHead, JoinComma(plugins), TailwindTail);
  }

  /** For boolean (or absent) plugin options the installed plugin packages and the plugin
      entries of the tailwind config agree. */
  lemma PluginsMatchPackages(opts: Opts, k: string)
    requires k == "forms" || k == "typography" || k == "lineclamp"
    requires k in opts ==> opts[k].JBool?
    ensures KeyTruthy(opts, k) <==> KeyLooselyTrue(opts, k)
  {
    if k in opts {
      BooleanLooselyTrue(opts[k].b);
    }
  }

  // ---------------------------------------------------------------------------------------
  // postcss.config.cjs and the root layout

  /** createPostCssConfig: a fixed text. */
  function PostCssConfig(): string
  {
    "module.exports = {\n\tplugins: {\n\t\ttailwindcss: {},\n\t\tautoprefixer: {},\n\t},\n}"
  }

  /** The global style sheet written to src/app.postcss. */
  const AppPostCss: string := "/*place global styles here */"

  /** `opts.types == 'typescript'`. */
  predicate UsesTypeScript(opts: Opts)
  {
    "types" in opts && LooselyEqualsString(opts["types"], "typescript")
  }

  /** The import line of the theme style sheet, with its leading tab. */
  function ThemeImport(theme: string): string
  {
    "\timport '@skeletonlabs/skeleton/themes/theme-" + theme + ".css';"
  }

  const LayoutTail: string := "\n\timport '@skeletonlabs/skeleton/styles/all.css';\n\timport '../app.postcss';\n</script>\n<slot/>"

  const ScriptTs: string := "<script lang='ts'>\n"
  const ScriptJs: string := "<script>\n"

  /** The opening script tag of the layout. */
  function ScriptOpen(opts: Opts): string
  {
    if UsesTypeScript(opts) then ScriptTs else ScriptJs
  }

  /** createSvelteKitLayout. */
  function Layout(opts: Opts): string
  {
    ScriptOpen(opts) + ThemeImport(KeyText(opts, "skeletontheme")) + LayoutTail
  }

  /** The layout opens with `<script lang='ts'>` exactly when `types == 'typescript'` (a bare
      `<script>` otherwise), and its next line imports the chosen theme's style sheet. */
  lemma LayoutShape(opts: Opts)
    ensures UsesTypeScript(opts) <==> Layout(opts)[..|ScriptTs|] == ScriptTs
    ensures !UsesTypeScript(opts) ==> Layout(opts)[..|ScriptJs|] == ScriptJs
    ensures var n := |ScriptOpen(opts)|; var line := ThemeImport(KeyText(opts, "skeletontheme"));
      Layout(opts)[n..n + |line|] == line
  {
    var line := ThemeImport(KeyText(opts, "skeletontheme"));
    if UsesTypeScript(opts) {
      Pieces(Layout(opts), ScriptTs, line, LayoutTail);
    } else {
      Pieces(Layout(opts), ScriptJs, line, LayoutTail);
      assert Layout(opts)[7] == ScriptJs[7];
    }
  }

  /** Each part of a text made of three parts can be read back from it, and cutting out the
      middle one joins the other two. */
  lemma Pieces(text: string, a: string, b: string, c: string)
    requires text == a + b + c
    ensures text[..|a|] == a
    ensures text[|a|..|a| + |b|] == b
    ensures text[|a| + |b|..] == c
    ensures text[..|a|] + text[|a| + |b|..] == a + c
  {
    assert text[..|a|] == a;
    assert text[|a| + |b|..] == c;
  }

  // ---------------------------------------------------------------------------------------
  // vite.config (monorepo only)

  /** The vite config createViteConfig edits. */
  function ViteFileName(opts: Opts): (r: string)
    ensures UsesTypeScript(opts) ==> r == "vite.config.ts"
    ensures !UsesTypeScript(opts) ==> r == "vite.config.js"
  {
    if UsesTypeScript(opts) then "vite.config.ts" else "vite.config.js"
  }

  const ViteToken: string := "kit()]"

  const ViteInsert: string := ",\n\tserver: {\n\t\tfs: {\n\t\t\tallow: ['../../packages/skeleton/']\n\t\t}\n\t}"

  /** `indexOf(token) + token.length`, clamped to the text as `slice` clamps it. */
  function InsertPoint(vite: string): (p: nat)
    ensures p <= |vite|
  {
    var q := IndexOf(vite, ViteToken) + |ViteToken|;
    if q > |vite| then |vite| else q
  }

  /** The splice of createViteConfig. */
  function ViteSplice(vite: string): string
  {
    var p := InsertPoint(vite);
    vite[..p] + ViteInsert + vite[p..]
  }

  /** Where the insert lands: right after the first `kit()]`, or at offset 5 (clamped to the
      text) when the token is missing. */
  lemma InsertPointPlacement(vite: string)
    ensures IndexOf(vite, ViteToken) >= 0 ==>
      InsertPoint(vite) == IndexOf(vite, ViteToken) + |ViteToken|
      && vite[InsertPoint(vite) - |ViteToken|..InsertPoint(vite)] == ViteToken
      && forall i :: 0 <= i < IndexOf(vite, ViteToken) ==> !OccursAt(vite, ViteToken, i)
    ensures IndexOf(vite, ViteToken) == -1 ==> InsertPoint(vite) == if |vite| < 5 then |vite| else 5
  {
  }

  /** The splice keeps the file around the insert, so removing the insert gives the file back. */
  lemma ViteSpliceRoundTrip(vite: string)
    ensures ViteSplice(vite)[InsertPoint(vite)..InsertPoint(vite) + |ViteInsert|] == ViteInsert
    ensures ViteSplice(vite)[..InsertPoint(vite)] + ViteSplice(vite)[InsertPoint(vite) + |ViteInsert|..] == vite
  {
    var p := InsertPoint(vite);
    Pieces(ViteSplice(vite), vite[..p], ViteInsert, vite[p..]);
    assert vite[..p] + vite[p..] == vite;
  }
}
