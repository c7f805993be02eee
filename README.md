# create-skeleton-app: option resolution and generated text, in Dafny

This project models the core of `create-skeleton-app`, the command-line generator that scaffolds a
SvelteKit project with the Skeleton UI toolkit and Tailwind. It covers two source files.

- `src/index.js` resolves the options:
  - the post-processing of the tokenised command line (a leftover positional argument becomes the
    project name unless it is the residue `0` of a mistyped flag);
  - quiet mode, where the defaults are overlaid with the given flags;
  - `askForMissingParams`, which builds one question per option the command line left out, in a
    fixed order. Its template question offers the enabled templates of the catalog, stably sorted
    by `position`. It then expands the Tailwind plugin multiselect answer into boolean options and
    merges defaults, flags and answers with `Object.assign`.
- `src/creator.js` produces the new project's settings and texts:
  - the `SkeletonOptions` defaults;
  - the install directory slug and the package manager fallback;
  - the ordered dev-dependency list and the install command of `createSkeleton`;
  - the texts of `svelte.config.js`, `tailwind.config.cjs`, `postcss.config.cjs` (a fixed text)
    and the root `+layout.svelte`;
  - the monorepo splice of the vite config;
  - the two text patches of `copyTemplate`.

The modules follow the program.

- `JsValues` holds the JavaScript semantics the source relies on:
  - the values an option can hold, with an absent key standing for `undefined`;
  - truthiness (`opts?.k`) and loose equality (`== true`, `!= 0`, `== 'typescript'`), through
    ECMAScript StringToNumber;
  - string conversion for template literals;
  - ASCII lower-casing;
  - `indexOf`;
  - the `$` patterns of `String.prototype.replace`.
- `Options` holds the option bag as a finite map from present keys to values, the defaults and
  `Object.assign`.
- `Cli` holds `src/index.js`. The steps that build a list step by step (the pushes of the questions,
  the `forEach` over the catalog, the loop that sets plugin options to true) are methods. Each method
  is proved equal to a specification function, and lemmas state what those functions promise.
- `Creator` holds `src/creator.js` except `copyTemplate`. `createSkeleton` and
  `createTailwindConfig` are methods, and the template-string builders are functions.
- `Patches` holds the two text patches of `copyTemplate`.
  - `copyTemplate` rewrites every matching line, since the regular expression
    `/theme-.*\.css';$/gim` is global. `Patches.ScanReplace` is a direct transcription of a
    global replace. It scans for the leftmost match, substitutes the
    replacement with its `$` patterns expanded, and resumes after the match.
  - That scan is proved equal to a line-by-line rewrite. Each line that ends in `.css';` and holds
    a `theme-` (case-insensitively) is cut at its first `theme-`, and `theme-<theme>.css';` is put
    in its place; every other line is kept.
  - Idempotence is proved on that line-by-line form.
  - The line terminators are those of ECMAScript (`\n`, `\r`, U+2028, U+2029), so CRLF files are
    covered too.
  - The `<body>` patch replaces the first `<body>` only.

## Model

| member | source | states |
|---|---|---|
| JsValues.Truthy | src/creator.js:77-81 | definition of JavaScript truthiness (`opts?.k`, `if (enabled)`); promises stated by Creator.DevDependenciesMembers and Cli.EnabledChoicesMembers |
| JsValues.Text | src/creator.js:223 | definition of ToString as a template literal applies it; for numbers, promises stated by JsValues.NatDigits |
| JsValues.Lower | src/creator.js:48 | `toLowerCase` keeps the length and maps each character through ASCII lower-casing |
| JsValues.LowerIdempotent | src/creator.js:48 | lower-casing twice is lower-casing once |
| JsValues.NatDigits | src/creator.js:223 | the decimal text of a number is made of digits, reads back as the number, and starts with `0` only for zero itself |
| JsValues.TrimStart | src/index.js:80 | StringToNumber's leading trim removes exactly a run of whitespace and leaves a non-blank start |
| JsValues.TrimEnd | src/index.js:80 | the trailing trim removes exactly a run of whitespace and leaves a non-blank end |
| JsValues.FindEither | src/index.js:80 | StringToNumber's search for the exponent marker or the decimal point finds the first one, or reports none |
| JsValues.StringToNumber | src/index.js:80 | definition of ECMAScript StringToNumber; promises stated by JsValues.TrimStart, JsValues.TrimEnd, JsValues.FindEither, JsValues.NonNumericLead and JsValues.UnsignedDecimalLead |
| JsValues.LooselyEqualsNumber | src/index.js:80 | definition of `v == x` for a number x; promises stated by Cli.WordBecomesName, Cli.ZeroIsNotAName and JsValues.BooleanLooselyTrue |
| JsValues.LooselyEqualsString | src/creator.js:202 | definition of `v == 'typescript'`; promises stated by Creator.ViteFileName and Creator.LayoutShape |
| JsValues.NonNumericLead | src/index.js:80 | a string whose first non-blank character cannot start a number converts to NaN |
| JsValues.UnsignedDecimalLead | src/index.js:80 | a text that starts with neither a digit nor `.` is no unsigned decimal literal |
| JsValues.BooleanLooselyTrue | src/creator.js:168-172 | for a boolean option, `== true` holds exactly when it is true |
| JsValues.Substitute | src/creator.js:248 | definition of the `$` patterns of a replacement text; promises stated by JsValues.SubstitutePlain |
| JsValues.SubstitutePlain | src/creator.js:248 | a replacement text without `$` is inserted literally |
| JsValues.IndexOf | src/creator.js:215 | definition of `indexOf` from the start; promises stated by JsValues.IndexFrom and Creator.InsertPointPlacement |
| JsValues.IndexFrom | src/creator.js:215 | `indexOf` gives the first occurrence at or after the start, or -1 exactly when there is none |
| Options.Defaults | src/creator.js:13-42 | `new SkeletonOptions()` has exactly the 24 option keys, each with its documented default |
| Options.DefaultChoices | src/creator.js:15-34 | the defaults of name, types, skeletontheme, skeletontemplate and packagemanager |
| Options.Assign | src/index.js:282-285 | `Object.assign`: the keys of both, the source's value on shared keys, the target's elsewhere |
| Cli.TakesPositionalName | src/index.js:80 | definition of the guard `opts._.length && opts._[0] != 0`; promises stated by Cli.ParseArgs, Cli.WordBecomesName and Cli.ZeroIsNotAName |
| Cli.ParseArgs | src/index.js:80-82 | the leftover list is kept under `_`; a first positional that is not loosely 0 becomes `name`; no other key changes |
| Cli.WordBecomesName | src/index.js:80-81 | a positional word that cannot start a number always becomes the name |
| Cli.ZeroIsNotAName | src/index.js:77-80 | the number 0 and a blank string are never taken as the name |
| Cli.Position | src/index.js:112-266 | each field has one place in the question order |
| Cli.FixedQuestion | src/index.js:112-237 | each fixed question stores its answer under the field's own key |
| Cli.Asked | src/index.js:110-240 | definition of the `!('k' in opts)` tests and the plugins `every` test; promises stated by Cli.AskedIffAbsent and Cli.PluginQuestionIffIncomplete |
| Cli.AskedFields | src/index.js:108-266 | definition of the fields asked about, in question order; promises stated by Cli.AskedUpToMembers, Cli.AskedUpToOrdered, Cli.AskedFieldsDistinct and Cli.BuildQuestions |
| Cli.EnabledChoices | src/index.js:244-257 | definition of the `forEach` filter over the catalog; promises stated by Cli.EnabledChoicesMembers |
| Cli.SortByPosition | src/index.js:258 | definition of the stable sort by `position`; promises stated by Cli.SortByPositionCorrect |
| Cli.TemplateMenu | src/index.js:243-258 | definition of the sorted template menu; promises stated by Cli.TemplateMenuCorrect, Cli.TemplateMenuContents and Cli.TemplateChoices |
| Cli.InsertMembers | src/index.js:258 | inserting a template choice adds exactly that choice |
| Cli.ConsSorted | src/index.js:258 | a choice not above any of a sorted tail can precede it |
| Cli.InsertSorted | src/index.js:258 | insertion by position keeps the menu sorted |
| Cli.AtPositionConcat | src/index.js:258 | the choices at one position in a concatenation are those of each part, in order |
| Cli.AtPositionAbove | src/index.js:258 | a sorted menu holds no choice at a position below its first |
| Cli.InsertAtPosition | src/index.js:258 | insertion puts the new choice after the choices sharing its position |
| Cli.AtPositionCons | src/index.js:258 | the choices at one position in a menu with a given head |
| Cli.SortByPositionCorrect | src/index.js:258 | the sort gives ascending positions and keeps the catalog order among equal positions (stability) |
| Cli.TemplateChoices | src/index.js:243-258 | the `forEach` and `sort` build the template menu, which is sorted and stable over the enabled templates |
| Cli.TemplateMenuCorrect | src/index.js:243-258 | the template menu is sorted by position and holds, position by position, the enabled templates in catalog order |
| Cli.AtPositionCount | src/index.js:258 | a choice occurs among the choices at its own position as often as in the whole menu |
| Cli.TemplateMenuContents | src/index.js:249-258 | the menu is a permutation of the enabled choices |
| Cli.EnabledChoicesMembers | src/index.js:244-256 | a choice is offered exactly when some template with a truthy `enabled` yields it, with the directory name as its value |
| Cli.QuestionOf | src/index.js:112-266 | each question is stored under its field's key |
| Cli.QuestionsFor | src/index.js:112-266 | one question per field, in the fields' order |
| Cli.QuestionsForAppend | src/index.js:112-266 | questions for two runs of fields are the two question lists, one after the other |
| Cli.PushIfAsked | src/index.js:112-237 | one `if (...) questions.push(q)` adds the field's question exactly when the field is asked |
| Cli.PushTemplateIfAsked | src/index.js:240-266 | the template question is pushed last, over the template menu, when `skeletontemplate` is absent |
| Cli.AskProjectQuestions | src/index.js:112-163 | the name, types, eslint and prettier pushes give the questions for the asked ones among the first four fields |
| Cli.AskToolingQuestions | src/index.js:165-199 | the playwright, vitest and inspector pushes extend them to the first seven fields |
| Cli.BuildQuestions | src/index.js:108-266 | the question list is one question per asked field, in the fixed order |
| Cli.TemplateQuestion | src/index.js:259-265 | the template question is a select without initial choice over a sorted, stable menu of the enabled templates |
| Cli.AskedUpToMembers | src/index.js:110-266 | a field is asked about exactly when its question is needed |
| Cli.AskedUpToOrdered | src/index.js:112-266 | the asked fields come in strictly increasing question order |
| Cli.AskedIffAbsent | src/index.js:110-240 | a field other than the plugins is asked about exactly when its key is absent, whatever a present key holds |
| Cli.PluginQuestionIffIncomplete | src/index.js:202-215 | the plugin question is asked exactly when forms, typography or lineclamp is absent |
| Cli.AskedFieldsDistinct | src/index.js:108-266 | no question is asked twice |
| Cli.PluginNames | src/index.js:280 | definition of the keys `Object.keys(response.twplugins)` walks (array elements, or the characters of a string); used by Cli.SetTrue and Cli.MergedKeys |
| Cli.AnsweredPlugins | src/index.js:280 | definition of the `response.twplugins != undefined` test; promises stated by Cli.MergedKeys and Cli.MergedValues |
| Cli.Merged | src/index.js:280-286 | definition of the options returned; promises stated by Cli.MergedKeys, Cli.MergedValues and Cli.MergeAnswers |
| Cli.SetTrue | src/index.js:280 | the plugin loop adds each named key, with the value true, and keeps every other key |
| Cli.MergedKeys | src/index.js:280-286 | the result holds every default, every given option, every chosen plugin and every answer but `twplugins` |
| Cli.MergedValues | src/index.js:280-286 | an answer wins, then a chosen plugin's true, then the given option, then the default |
| Cli.Overlay | src/index.js:282-285 | the value of a key after the two `Object.assign` calls over the plugin-expanded options |
| Cli.MergeAnswers | src/index.js:277-286 | the plugin expansion, the delete and the two assigns compute the merged options |
| Cli.SwitchOn | src/index.js:280 | the loop over the plugin answer sets each named key to true |
| Cli.AskForMissingParams | src/index.js:91-286 | the questions asked and the options returned for a given response |
| Cli.ResolveOptions | src/index.js:14-22 | quiet mode asks nothing, keeps every given option and defaults the rest; otherwise askForMissingParams |
| Creator.CollapseSpaces | src/creator.js:48 | definition of `replace(/\s+/g, '-')`; promises stated by Creator.CollapseSpacesNoSpaces and Creator.CollapseSpacesIdentity |
| Creator.CollapseSpacesNoSpaces | src/creator.js:48 | after `replace(/\s+/g, '-')` no whitespace is left |
| Creator.CollapseSpacesIdentity | src/creator.js:48 | the replace leaves a text without whitespace unchanged |
| Creator.LowerNoSpaces | src/creator.js:48 | lower-casing introduces no whitespace |
| Creator.Slug | src/creator.js:48 | definition of the directory name; promises stated by Creator.SlugNoSpaces, Creator.SlugIdempotent and Creator.SlugOfWord |
| Creator.InstallPath | src/creator.js:46-49 | definition of the install path as an abstract join of base and slug; promises stated by Creator.CreateSkeleton |
| Creator.SlugNoSpaces | src/creator.js:46-49 | the directory slug holds no whitespace |
| Creator.SlugIdempotent | src/creator.js:46-49 | normalising the name twice is normalising it once |
| Creator.SlugOfWord | src/creator.js:48 | a name without whitespace is only lower-cased |
| Creator.PackageManager | src/creator.js:66 | the package manager that launched the generator, or npm when none reports a name |
| Creator.DevDependencies | src/creator.js:69-81 | definition of the dev-dependency list; promises stated by Creator.DevDependenciesShape, Creator.DevDependenciesMembers and Creator.CollectDevDependencies |
| Creator.DevDependenciesShape | src/creator.js:69-81 | the five base packages first, in order, then one package per truthy flag |
| Creator.DevDependenciesMembers | src/creator.js:77-81 | each optional package is installed exactly when its flag is truthy |
| Creator.CreateSkeleton | src/creator.js:44-87 | a name or path that is not a string fails, as does a non-empty target; otherwise the settled options, the package list and the install command |
| Creator.CollectDevDependencies | src/creator.js:69-81 | the pushes build the dev-dependency list |
| Creator.SettledFlags | src/creator.js:46-81 | filling in the path and the package manager does not change the dev dependencies |
| Creator.SvelteConfig | src/creator.js:133-164 | definition of createSvelteConfig; promises stated by Creator.SvelteConfigInspector and Creator.SvelteConfigNoInspector |
| Creator.SvelteConfigInspector | src/creator.js:133-164 | with `inspector == true` the inspector block follows the fixed head, and cutting it out gives the config without it |
| Creator.SvelteConfigNoInspector | src/creator.js:133-164 | otherwise the config is the one without the block |
| Creator.JoinComma | src/creator.js:182 | `join(',')`: no entries give the empty text, and entries without commas are read back one by one, in order, by splitting at the commas |
| Creator.TailwindPlugins | src/creator.js:167-173 | definition of the plugin entries; promises stated by Creator.TailwindPluginsShape and Creator.PluginsMatchPackages |
| Creator.TailwindConfig | src/creator.js:175-185 | definition of the config text; promises stated by Creator.CreateTailwindConfig and Creator.TailwindConfigPlugins |
| Creator.CreateTailwindConfig | src/creator.js:166-186 | the pushes and the template give the tailwind config |
| Creator.TailwindPluginsShape | src/creator.js:167-173 | each Tailwind plugin appears exactly when its option is `== true`; the theme plugin is always present and last |
| Creator.TailwindConfigPlugins | src/creator.js:175-185 | the `plugins: [...]` list of the config follows the fixed head and holds the plugin entries, one by one and in order |
| Creator.PluginsMatchPackages | src/creator.js:168-172 | for boolean plugin options, the installed packages and the config's plugin entries agree |
| Creator.PostCssConfig | src/creator.js:188-196 | definition: createPostCssConfig returns a fixed text |
| Creator.Layout | src/creator.js:221-229 | definition of createSvelteKitLayout; promises stated by Creator.LayoutShape |
| Creator.LayoutShape | src/creator.js:221-229 | the layout opens with `<script lang='ts'>` exactly when `types == 'typescript'`, and its next line imports the chosen theme |
| Creator.Pieces | src/creator.js:216 | each part of a three-part text can be read back from it, and cutting out the middle part joins the other two |
| Creator.ViteFileName | src/creator.js:200-206 | `vite.config.ts` exactly when `types == 'typescript'`, else `vite.config.js` |
| Creator.InsertPoint | src/creator.js:214-216 | the insert point lies within the file |
| Creator.InsertPointPlacement | src/creator.js:214-216 | the insert goes right after the first `kit()]`, or at offset 5 (clamped) when the token is missing |
| Creator.ViteSplice | src/creator.js:214-216 | definition of the splice; promises stated by Creator.InsertPointPlacement and Creator.ViteSpliceRoundTrip |
| Creator.ViteSpliceRoundTrip | src/creator.js:214-216 | the insert sits at the insert point, and removing it gives the file back |
| Patches.ScanReplace | src/creator.js:245-248 | definition of a global replace scanning for the leftmost match; promises stated by Patches.ScanLine and Patches.ScanIsLineWise |
| Patches.ThemePatch | src/creator.js:245-248 | definition of the layout patch; promises stated by Patches.ThemePatchLineWise and Patches.ThemePatchIdempotent |
| Patches.LineEnd | src/creator.js:245 | the end of a line is the next line terminator or the end of the text |
| Patches.LineEndFirst | src/creator.js:245 | no line terminator lies before the line end |
| Patches.CiAtChar | src/creator.js:245 | a case-insensitive occurrence matches character by character |
| Patches.CiAtSame | src/creator.js:245 | a case-insensitive occurrence depends only on the case-folded characters |
| Patches.CiAtIntro | src/creator.js:245 | characters that fold to the word make an occurrence |
| Patches.LowerWords | src/creator.js:245 | `theme-` and `.css';` are lower case |
| Patches.ThemeFrom | src/creator.js:245 | the search for `theme-` stays within the line |
| Patches.ThemeFromFound | src/creator.js:245 | it finds a `theme-` wholly inside the line, or reports none |
| Patches.ThemeFromFirst | src/creator.js:245 | no earlier `theme-` lies in the line |
| Patches.MapLinesNext | src/creator.js:245-248 | a line-by-line rewrite is the rewritten line, its terminator and the rest rewritten |
| Patches.MapLinesEqual | src/creator.js:245-248 | two line rules that agree on every line give the same text |
| Patches.MapLinesAppend | src/creator.js:245-248 | the rewrite of a text's tail does not depend on what precedes it |
| Patches.NoOverlap | src/creator.js:245 | `theme-` and a closing `.css';` cannot overlap |
| Patches.PatchLineAtStep | src/creator.js:245-248 | where no match starts, the scan keeps one character and moves on |
| Patches.ScanLine | src/creator.js:245-248 | the global replace handles a line as a whole and then goes on from its terminator |
| Patches.ScanIsLineWise | src/creator.js:245-248 | the global replace equals the line-by-line rewrite |
| Patches.ThemeAtShift | src/creator.js:245 | a `theme-` in the text is a `theme-` in the line cut out of it |
| Patches.CssAtShift | src/creator.js:245 | a closing `.css';` in the text is one in the line cut out of it |
| Patches.ThemeFromShift | src/creator.js:245 | the first `theme-` is found in the same place in the cut-out line |
| Patches.PatchLine | src/creator.js:245-248 | definition of one line after the patch; promises stated by Patches.PatchLineIdempotent, Patches.ReplacedLineFirst and Patches.ReplacedLineCss |
| Patches.PatchText | src/creator.js:245-248 | definition of the line-by-line patch; promises stated by Patches.ThemePatchLineWise and Patches.PatchTextIdempotent |
| Patches.PatchLineAtPlain | src/creator.js:248 | with a replacement without `$`, the in-text rewrite of a line is the rewrite of the line alone |
| Patches.PatchLineAtFound | src/creator.js:248 | the same when the line holds a `theme-` |
| Patches.PlainIsLineWise | src/creator.js:245-248 | with a replacement without `$`, the patch rewrites each line as a value of its own |
| Patches.ThemePatchLineWise | src/creator.js:245-249 | for a theme name without `$`, the layout patch rewrites every line ending in `.css';` that holds a `theme-`, from its first `theme-`, and keeps every other line |
| Patches.LineEndOfLine | src/creator.js:245 | a text without terminators is a single line |
| Patches.LineEndBeforeTerminator | src/creator.js:245 | a line ends at the terminator that follows it |
| Patches.ThemeFromIs | src/creator.js:245 | the first `theme-` is where the search stops |
| Patches.NoEarlierTheme | src/creator.js:245-248 | rewriting a line creates no `theme-` before its first one |
| Patches.ThemeReplacementFramed | src/creator.js:248 | the replacement starts with `theme-` and ends with `.css';` |
| Patches.ReplacedLineFirst | src/creator.js:245-248 | in a rewritten line the first `theme-` is where the replacement starts |
| Patches.ReplacedLineCss | src/creator.js:245-248 | a rewritten line ends in `.css';` |
| Patches.PatchLineIdempotent | src/creator.js:245-248 | rewriting a line twice is rewriting it once |
| Patches.OneLineReplacement | src/creator.js:245-248 | with a theme name without line terminators, a rewritten line stays one line |
| Patches.LineEndAppend | src/creator.js:245 | line ends in a tail are the same after a prefix |
| Patches.SliceAfter | src/creator.js:245 | a slice of a tail is the same after a prefix |
| Patches.ByContentAppend | src/creator.js:245-248 | a content-based line rewrite of a tail ignores what precedes it |
| Patches.PatchTextFromAppend | src/creator.js:245-248 | the patch of a tail ignores what precedes it |
| Patches.PatchedLine | src/creator.js:245-248 | a patched line is one line and a fixed point of the line rewrite |
| Patches.LastLineKept | src/creator.js:245-248 | a single line that the rewrite keeps is kept by the patch |
| Patches.NextLineKept | src/creator.js:245-248 | a kept line before a kept rest gives a kept text |
| Patches.PatchTextIdempotent | src/creator.js:245-248 | patching a patched text changes nothing |
| Patches.ThemePatchIdempotent | src/creator.js:245-249 | applying the layout patch twice equals applying it once, for a theme name without `$` or line terminators |
| Patches.BodyPatch | src/creator.js:251-255 | definition of the `<body>` patch; promises stated by Patches.BodyPatchAbsent, Patches.BodyPatchKeeps and Patches.BodyPatchPlain |
| Patches.BodyPatchAbsent | src/creator.js:251-255 | a page without `<body>` is unchanged |
| Patches.BodyPatchKeeps | src/creator.js:251-255 | only the first `<body>` is replaced; the text before it and everything after it, later `<body>` tags included, are kept |
| Patches.BodyPatchPlain | src/creator.js:251-255 | for a theme name without `$`, the first `<body>` becomes `<body data-theme="<theme>">` |

## Left out

- The `mri` tokenising and alias table: `Cli.ParseArgs` takes the recognised flags and the
  positional list as inputs.
- The help exit, the version banner, the console messages and the final instructions of `main`:
  they are output only.
- The `prompts` engine and its cancel exit: its response is an input map.
- Reading `meta.json` from disk: the catalog is an input list of records.
- `whichPMRuns`: what it reports is an input.
- Whether the install directory exists and holds files: this is an input flag. The model returns
  an error where the source ends the process.
- The filesystem and subprocess effects: `mkdirp`, `create-svelte`, `chdir`, the `spawnSync`
  install and its output reporting, `copySync`, and the file reads and writes. The model computes
  the texts that are written and the command line that is run.
- `path.resolve`: `Creator.InstallPath` keeps the path as an abstract join of base and slug,
  without normalisation.
- Non-integer numbers: a `Value` number is an integer. Loose equality converts strings with exact
  reals, so floating-point rounding, overflow and underflow are not modelled.
- `toLowerCase` beyond ASCII: `JsValues.LowerChar` maps only `A`-`Z`. The regular expression's
  case folding of non-ASCII characters cannot affect the ASCII words `theme-` and `.css';`.
- Creator.ViteSplice works on characters, whereas the source works on the bytes of a `Buffer`.
  The UTF-8 decoding and encoding is not modelled.
- Patches.ThemePatchIdempotent requires a theme name without `$` or line terminators, because a
  `$` pattern or a line break in the replacement can make a second pass differ.
- Cli.QuestionOf: the message, `active` and `inactive` texts of the questions are not modelled,
  because they are display text only.
- `Array.prototype.sort` is a library call that works in place. It is modelled as the stable
  insertion sort `Cli.SortByPosition` on values, so the in-place update of `parsedChoices` is not
  modelled.
- Template positions are integers. A `meta.json` whose `position` is missing or not a number makes
  the comparator return NaN, and that is not modelled.
