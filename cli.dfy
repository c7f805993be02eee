/** Option resolution of the command-line entry point: the name taken from a leftover positional
    argument, quiet mode, the questions asked for every option the command line left out, the
    template menu, and the merge of defaults, flags and answers. */
module Cli {
  import opened JsValues
  import opened Options

  // ---------------------------------------------------------------------------------------
  // parseArgs

  /** parseArgs gives the name to the first leftover positional argument unless it loosely
      equals 0, which is what a mistyped boolean flag such as `--prettier=0` leaves behind. */
  predicate TakesPositionalName(positional: seq<Value>)
  {
    |positional| > 0 && !LooselyEqualsNumber(positional[0], 0.0)
  }

  /** The post-processing of the tokenised command line: `flags` are the options the
      tokeniser recognised, `positional` its catch-all list `_`. */
  method ParseArgs(flags: Opts, positional: seq<Value>) returns (opts: Opts)
    ensures opts.Keys == flags.Keys + {"_"} + (if TakesPositionalName(positional) then {"name"} else {})
    ensures opts["_"] == JArray(positional)
    ensures TakesPositionalName(positional) ==> opts["name"] == positional[0]
    ensures !TakesPositionalName(positional) && "name" in flags ==> opts["name"] == flags["name"]
    ensures forall k :: k in flags && k != "_" && k != "name" ==> opts[k] == flags[k]
  {
    opts := flags["_" := JArray(positional)];
    var rest := opts["_"].items;
    if |rest| > 0 && !LooselyEqualsNumber(rest[0], 0.0) {
      opts := opts["name" := rest[0]];
    }
  }

  /** A positional word whose first non-blank character cannot start a number always becomes
      the project name. */
  lemma WordBecomesName(word: string, rest: seq<Value>)
    requires Trim(word) != [] && Trim(word)[0] !in "0123456789+-.I"
    ensures TakesPositionalName([JString(word)] + rest)
  {
    NonNumericLead(word);
  }

  /** The mistyped-flag residue is never taken as the name: the number 0, or a blank string. */
  lemma ZeroIsNotAName(rest: seq<Value>, blank: string)
    requires forall i :: 0 <= i < |blank| ==> IsJsSpace(blank[i])
    ensures !TakesPositionalName([JNumber(0)] + rest)
    ensures !TakesPositionalName([JString(blank)] + rest)
  {
    assert TrimStart(blank) == [];
  }

  // ---------------------------------------------------------------------------------------
  // Questions

  datatype QuestionKind = TextInput | Select | Toggle | MultiSelect

  /** A fixed choice of a select or multiselect question; `selected` is the multiselect's
      preselection (`opts?.forms`), absent when the option is. */
  datatype Choice = Choice(title: string, value: Value, selected: Option<Value>)

  /** One template of the template catalog as its meta.json describes it; `dir` is the
      template's directory name. */
  datatype TemplateMeta = TemplateMeta(dir: string, position: int, title: Value, description: Value, enabled: Value)

  /** A choice of the template question. */
  datatype TemplateChoice = TemplateChoice(position: int, title: Value, description: Value, value: string)

  datatype Choices = NoChoices | Fixed(options: seq<Choice>) | Templates(menu: seq<TemplateChoice>)

  /** A question for the prompt engine; its answer is stored under `name`. */
  datatype Question = Question(kind: QuestionKind, name: string, initial: Option<Value>, choices: Choices)

  /** The answers asked for, one per question. */
  datatype Field = Name | Types | Eslint | Prettier | Playwright | Vitest | Inspector | TwPlugins
                 | SkeletonTheme | SkeletonTemplate

  /** The key a field's answer is stored under. */
  function Key(f: Field): string
  {
    match f
    case Name => "name"
    case Types => "types"
    case Eslint => "eslint"
    case Prettier => "prettier"
    case Playwright => "playwright"
    case Vitest => "vitest"
    case Inspector => "inspector"
    case TwPlugins => "twplugins"
    case SkeletonTheme => "skeletontheme"
    case SkeletonTemplate => "skeletontemplate"
  }

  /** The number of fields; their order is the order their questions are built. */
  const FieldCount: nat := 10

  /** The k-th field in question order. */
  function FieldAt(k: nat): Field
    requires k < FieldCount
  {
    if k == 0 then Name
    else if k == 1 then Types
    else if k == 2 then Eslint
    else if k == 3 then Prettier
    else if k == 4 then Playwright
    else if k == 5 then Vitest
    else if k == 6 then Inspector
    else if k == 7 then TwPlugins
    else if k == 8 then SkeletonTheme
    else SkeletonTemplate
  }

  /** Where a field's question comes in the order. */
  function Position(f: Field): (k: nat)
    ensures k < FieldCount && FieldAt(k) == f
  {
    match f
    case Name => 0
    case Types => 1
    case Eslint => 2
    case Prettier => 3
    case Playwright => 4
    case Vitest => 5
    case Inspector => 6
    case TwPlugins => 7
    case SkeletonTheme => 8
    case SkeletonTemplate => 9
  }

  /** Whether every Tailwind plugin option that the one multiselect question covers is given. */
  predicate PluginsGiven(opts: Opts)
  {
    "forms" in opts && "typography" in opts && "lineclamp" in opts
  }

  /** Whether the question for `field` is needed: the field's key is absent (its value, even
      false, does not matter); the plugin question is needed unless all three plugin keys are
      present. */
  predicate Asked(opts: Opts, field: Field)
  {
    if field == TwPlugins then !PluginsGiven(opts) else Key(field) !in opts
  }

  /** The fields among the first k whose question is needed, in question order. */
  function AskedUpTo(opts: Opts, k: nat): seq<Field>
    requires k <= FieldCount
  {
    if k == 0 then []
    else AskedUpTo(opts, k - 1) + (if Asked(opts, FieldAt(k - 1)) then [FieldAt(k - 1)] else [])
  }

  /** The fields whose question is needed, in question order. */
  function AskedFields(opts: Opts): seq<Field>
  {
    AskedUpTo(opts, FieldCount)
  }

  /** `opts?.k`, as a multiselect preselection. */
  function Preselected(opts: Opts, k: string): Option<Value>
  {
    if k in opts then Some(opts[k]) else None
  }

  const ThemeChoices: seq<Choice> := [
    Choice("Skeleton", JString("skeleton"), None),
    Choice("Modern", JString("modern"), None),
    Choice("Hamlindigo", JString("hamlindigo"), None),
    Choice("Rocket", JString("rocket"), None),
    Choice("Sahara", JString("sahara"), None),
    Choice("Gold Nouveau", JString("gold-nouveau"), None),
    Choice("Vintage", JString("vintage"), None),
    Choice("Seafoam", JString("seafoam"), None),
    Choice("Crimson", JString("crimson"), None)
  ]

  const TypesChoices: seq<Choice> := [
    Choice("Yes, using JavaScript with JSDoc comments", JString("checkjs"), None),
    Choice("Yes, using TypeScript syntax", JString("typescript"), None),
    Choice("No", JNull, None)
  ]

  /** The plugin choices, each preselected with the option's current value. */
  function PluginChoices(opts: Opts): seq<Choice>
  {
    [Choice("forms", JString("forms"), Preselected(opts, "forms")),
     Choice("typography", JString("typography"), Preselected(opts, "typography")),
     Choice("line-clamp", JString("lineclamp"), Preselected(opts, "lineclamp"))]
  }

  /** The question asked for each field other than the template. */
  function FixedQuestion(field: Field, opts: Opts): (q: Question)
    requires field != SkeletonTemplate
    ensures q.name == Key(field)
  {
    if field == Name then Question(TextInput, "name", None, NoChoices)
    else if field == Types then Question(Select, "types", Some(JBool(false)), Fixed(TypesChoices))
    else if field == TwPlugins then Question(MultiSelect, "twplugins", None, Fixed(PluginChoices(opts)))
    else if field == SkeletonTheme then
      Question(Select, "skeletontheme", Some(JNumber(0)), Fixed(ThemeChoices))
    else Question(Toggle, Key(field), Some(JBool(false)), NoChoices)
  }

  // ---------------------------------------------------------------------------------------
  // The template menu

  function ChoiceOf(m: TemplateMeta): TemplateChoice
  {
    TemplateChoice(m.position, m.title, m.description, m.dir)
  }

  /** The choices of the enabled templates, in catalog order. */
  function EnabledChoices(metas: seq<TemplateMeta>): seq<TemplateChoice>
  {
    if metas == [] then []
    else
      var last := metas[|metas| - 1];
      EnabledChoices(metas[..|metas| - 1]) + (if Truthy(last.enabled) then [ChoiceOf(last)] else [])
  }

  /** The choices with position p, in their order. */
  function AtPosition(s: seq<TemplateChoice>, p: int): seq<TemplateChoice>
  {
    if s == [] then []
    else (if s[0].position == p then [s[0]] else []) + AtPosition(s[1..], p)
  }

  predicate SortedByPosition(s: seq<TemplateChoice>)
  {
    forall i, j :: 0 <= i < j < |s| ==> s[i].position <= s[j].position
  }

  /** The menu offers the enabled templates in ascending position, templates sharing a
      position keeping their catalog order (Array.prototype.sort is stable). */
  ghost predicate IsTemplateMenu(menu: seq<TemplateChoice>, metas: seq<TemplateMeta>)
  {
    SortedByPosition(menu)
    && forall p :: AtPosition(menu, p) == AtPosition(EnabledChoices(metas), p)
  }

  /** Places c after every element whose position is at most c's. */
  function InsertByPosition(c: TemplateChoice, s: seq<TemplateChoice>): seq<TemplateChoice>
  {
    if s == [] then [c]
    else if s[0].position <= c.position then [s[0]] + InsertByPosition(c, s[1..])
    else [c] + s
  }

  /** A stable sort by ascending position. */
  function SortByPosition(s: seq<TemplateChoice>): seq<TemplateChoice>
  {
    if s == [] then [] else InsertByPosition(s[|s| - 1], SortByPosition(s[..|s| - 1]))
  }

  /** What is inserted is c and what s holds. */
  lemma {:induction false} InsertMembers(c: TemplateChoice, s: seq<TemplateChoice>)
    ensures multiset(InsertByPosition(c, s)) == multiset(s) + multiset{c}
  {
    if s != [] && s[0].position <= c.position {
      InsertMembers(c, s[1..]);
      assert s == [s[0]] + s[1..];
    }
  }

  lemma ConsSorted(h: TemplateChoice, t: seq<TemplateChoice>)
    requires SortedByPosition(t)
    requires forall x :: x in t ==> h.position <= x.position
    ensures SortedByPosition([h] + t)
  {
    var s := [h] + t;
    forall i, j | 0 <= i < j < |s| ensures s[i].position <= s[j].position {
      assert s[j] == t[j - 1];
      if i > 0 {
        assert s[i] == t[i - 1];
      } else {
        assert t[j - 1] in t;
      }
    }
  }

  lemma {:induction false} InsertSorted(c: TemplateChoice, s: seq<TemplateChoice>)
    requires SortedByPosition(s)
    ensures SortedByPosition(InsertByPosition(c, s))
  {
    if s == [] {
    } else if s[0].position <= c.position {
      var t := InsertByPosition(c, s[1..]);
      assert SortedByPosition(s[1..]);
      InsertSorted(c, s[1..]);
      InsertMembers(c, s[1..]);
      forall x | x in t ensures s[0].position <= x.position {
        assert x in multiset(t);
        if x != c {
          assert x in multiset(s[1..]);
          var j :| 0 <= j < |s[1..]| && s[1..][j] == x;
          assert s[j + 1] == x;
        }
      }
      ConsSorted(s[0], t);
    } else {
      forall x | x in s ensures c.position <= x.position {
        var j :| 0 <= j < |s| && s[j] == x;
        assert s[0].position <= s[j].position;
      }
      ConsSorted(c, s);
    }
  }

  lemma {:induction false} AtPositionConcat(a: seq<TemplateChoice>, b: seq<TemplateChoice>, p: int)
    ensures AtPosition(a + b, p) == AtPosition(a, p) + AtPosition(b, p)
  {
    if a != [] {
      assert (a + b)[0] == a[0];
      assert (a + b)[1..] == a[1..] + b;
      AtPositionConcat(a[1..], b, p);
      var head := if a[0].position == p then [a[0]] else [];
      assert AtPosition(a + b, p) == head + (AtPosition(a[1..], p) + AtPosition(b, p));
      assert AtPosition(a, p) == head + AtPosition(a[1..], p);
    } else {
      assert a + b == b;
    }
  }

  lemma {:induction false} AtPositionAbove(s: seq<TemplateChoice>, p: int)
    requires SortedByPosition(s)
    requires s != [] ==> p < s[0].position
    ensures AtPosition(s, p) == []
  {
    if s != [] {
      AtPositionAbove(s[1..], p);
    }
  }

  lemma {:induction false} InsertAtPosition(c: TemplateChoice, s: seq<TemplateChoice>, p: int)
    requires SortedByPosition(s)
    ensures AtPosition(InsertByPosition(c, s), p) == AtPosition(s, p) + AtPosition([c], p)
  {
    if s == [] {
    } else if s[0].position <= c.position {
      var t := s[1..];
      assert SortedByPosition(t);
      InsertAtPosition(c, t, p);
      AtPositionCons(s[0], InsertByPosition(c, t), p);
      assert s == [s[0]] + t;
      AtPositionCons(s[0], t, p);
    } else {
      assert InsertByPosition(c, s) == [c] + s;
      if p == c.position {
        AtPositionAbove(s, p);
      }
      AtPositionCons(c, s, p);
      assert [c][1..] == [];
    }
  }

  /** The choices with position p in a sequence with head h. */
  lemma AtPositionCons(h: TemplateChoice, t: seq<TemplateChoice>, p: int)
    ensures AtPosition([h] + t, p) == (if h.position == p then [h] else []) + AtPosition(t, p)
  {
    assert ([h] + t)[1..] == t;
  }

  lemma {:induction false} SortByPositionCorrect(s: seq<TemplateChoice>)
    ensures SortedByPosition(SortByPosition(s))
    ensures forall p :: AtPosition(SortByPosition(s), p) == AtPosition(s, p)
  {
    if s != [] {
      var init, last := s[..|s| - 1], s[|s| - 1];
      SortByPositionCorrect(init);
      InsertSorted(last, SortByPosition(init));
      forall p ensures AtPosition(SortByPosition(s), p) == AtPosition(s, p) {
        InsertAtPosition(last, SortByPosition(init), p);
        assert s == init + [last];
        AtPositionConcat(init, [last], p);
      }
    }
  }

  /** The template menu of the catalog `metas`. */
  function TemplateMenu(metas: seq<TemplateMeta>): seq<TemplateChoice>
  {
    SortByPosition(EnabledChoices(metas))
  }

  /** Builds the template menu: collects the enabled templates, then sorts them by position. */
  method TemplateChoices(metas: seq<TemplateMeta>) returns (menu: seq<TemplateChoice>)
    ensures menu == TemplateMenu(metas)
    ensures IsTemplateMenu(menu, metas)
  {
    var parsed := [];
    for i := 0 to |metas|
      invariant parsed == EnabledChoices(metas[..i])
    {
      assert metas[..i + 1][..i] == metas[..i];
      if Truthy(metas[i].enabled) {
        parsed := parsed + [ChoiceOf(metas[i])];
      }
    }
    assert metas[..|metas|] == metas;
    SortByPositionCorrect(parsed);
    menu := SortByPosition(parsed);
  }

  lemma TemplateMenuCorrect(metas: seq<TemplateMeta>)
    ensures IsTemplateMenu(TemplateMenu(metas), metas)
  {
    SortByPositionCorrect(EnabledChoices(metas));
  }

  lemma {:induction false} AtPositionCount(s: seq<TemplateChoice>, c: TemplateChoice)
    ensures multiset(AtPosition(s, c.position))[c] == multiset(s)[c]
  {
    if s != [] {
      AtPositionCount(s[1..], c);
      assert s == [s[0]] + s[1..];
    }
  }

  /** A template menu is a permutation of the enabled templates' choices: only enabled
      templates appear, each as often as in the catalog, with its directory as value. */
  lemma TemplateMenuContents(menu: seq<TemplateChoice>, metas: seq<TemplateMeta>)
    requires IsTemplateMenu(menu, metas)
    ensures multiset(menu) == multiset(EnabledChoices(metas))
  {
    forall c ensures multiset(menu)[c] == multiset(EnabledChoices(metas))[c] {
      AtPositionCount(menu, c);
      AtPositionCount(EnabledChoices(metas), c);
    }
  }

  lemma {:induction false} EnabledChoicesMembers(metas: seq<TemplateMeta>, c: TemplateChoice)
    ensures c in EnabledChoices(metas) <==> exists m :: m in metas && Truthy(m.enabled) && c == ChoiceOf(m)
  {
    if metas != [] {
      var init := metas[..|metas| - 1];
      EnabledChoicesMembers(init, c);
      assert metas == init + [metas[|metas| - 1]];
    }
  }

  // ---------------------------------------------------------------------------------------
  // Building the questions

  /** The question built for `field`: the fixed question, or for the template a select over
      the template menu of the catalog. */
  function QuestionOf(field: Field, opts: Opts, menu: seq<TemplateChoice>): (q: Question)
    ensures q.name == Key(field)
  {
    if field == SkeletonTemplate then Question(Select, "skeletontemplate", None, Templates(menu))
    else FixedQuestion(field, opts)
  }

  /** The questions for `fields`, one each, in order. */
  function QuestionsFor(fields: seq<Field>, opts: Opts, menu: seq<TemplateChoice>): (r: seq<Question>)
    ensures |r| == |fields|
    ensures forall i :: 0 <= i < |fields| ==> r[i] == QuestionOf(fields[i], opts, menu)
  {
    seq(|fields|, i requires 0 <= i < |fields| => QuestionOf(fields[i], opts, menu))
  }

  /** Questions for two runs of fields are the questions for each run, one after the other. */
  lemma QuestionsForAppend(a: seq<Field>, b: seq<Field>, opts: Opts, menu: seq<TemplateChoice>)
    ensures QuestionsFor(a + b, opts, menu) == QuestionsFor(a, opts, menu) + QuestionsFor(b, opts, menu)
  {
    var l, r := QuestionsFor(a + b, opts, menu), QuestionsFor(a, opts, menu) + QuestionsFor(b, opts, menu);
    assert |l| == |r|;
    forall i | 0 <= i < |l| ensures l[i] == r[i] {
      if i >= |a| {
        assert (a + b)[i] == b[i - |a|];
      }
    }
  }

  /** One `if (...) questions.push(q)` of askForMissingParams, for a field with a fixed
      question: the question is pushed when the field's option is missing. */
  method PushIfAsked(questions: seq<Question>, field: Field, opts: Opts, ghost menu: seq<TemplateChoice>)
    returns (next: seq<Question>)
    requires field != SkeletonTemplate && questions == QuestionsFor(AskedUpTo(opts, Position(field)), opts, menu)
    ensures next == QuestionsFor(AskedUpTo(opts, Position(field) + 1), opts, menu)
  {
    next := questions;
    if Asked(opts, field) {
      next := next + [FixedQuestion(field, opts)];
    }
    QuestionsForAppend(AskedUpTo(opts, Position(field)), if Asked(opts, field) then [field] else [], opts, menu);
  }

  /** The last `if (...) questions.push(q)` of askForMissingParams: the template question,
      whose choices are read from the template catalog. */
  method PushTemplateIfAsked(questions: seq<Question>, opts: Opts, metas: seq<TemplateMeta>)
    returns (next: seq<Question>)
    requires questions == QuestionsFor(AskedUpTo(opts, 9), opts, TemplateMenu(metas))
    ensures next == QuestionsFor(AskedUpTo(opts, 10), opts, TemplateMenu(metas))
  {
    next := questions;
    if !("skeletontemplate" in opts) {
      var menu := TemplateChoices(metas);
      next := next + [Question(Select, "skeletontemplate", None, Templates(menu))];
    }
    ghost var asked := if Asked(opts, SkeletonTemplate) then [SkeletonTemplate] else [];
    QuestionsForAppend(AskedUpTo(opts, 9), asked, opts, TemplateMenu(metas));
  }

  /** The questions of askForMissingParams about the SvelteKit project itself: name, types,
      eslint and prettier. */
  method AskProjectQuestions(opts: Opts, ghost menu: seq<TemplateChoice>) returns (questions: seq<Question>)
    ensures questions == QuestionsFor(AskedUpTo(opts, 4), opts, menu)
  {
    questions := [];
    questions := PushIfAsked(questions, Name, opts, menu);
    questions := PushIfAsked(questions, Types, opts, menu);
    questions := PushIfAsked(questions, Eslint, opts, menu);
    questions := PushIfAsked(questions, Prettier, opts, menu);
  }

  /** The questions of askForMissingParams about the project's test and debug tooling:
      playwright, vitest and inspector. */
  method AskToolingQuestions(questions: seq<Question>, opts: Opts, ghost menu: seq<TemplateChoice>)
    returns (next: seq<Question>)
    requires questions == QuestionsFor(AskedUpTo(opts, 4), opts, menu)
    ensures next == QuestionsFor(AskedUpTo(opts, 7), opts, menu)
  {
    next := PushIfAsked(questions, Playwright, opts, menu);
    next := PushIfAsked(next, Vitest, opts, menu);
    next := PushIfAsked(next, Inspector, opts, menu);
  }

  /** askForMissingParams, up to the prompt: one question per needed field, in the fixed
      order; the template question offers the template menu of the catalog `metas`. */
  method BuildQuestions(opts: Opts, metas: seq<TemplateMeta>) returns (questions: seq<Question>)
    ensures questions == QuestionsFor(AskedFields(opts), opts, TemplateMenu(metas))
  {
    ghost var menu := TemplateMenu(metas);
    questions := AskProjectQuestions(opts, menu);
    questions := AskToolingQuestions(questions, opts, menu);
    questions := PushIfAsked(questions, TwPlugins, opts, menu);
    questions := PushIfAsked(questions, SkeletonTheme, opts, menu);
    questions := PushTemplateIfAsked(questions, opts, metas);
  }

  /** The fixed questions are as listed; the template question is a select, without initial
      choice, over a menu that satisfies IsTemplateMenu. */
  lemma TemplateQuestion(opts: Opts, metas: seq<TemplateMeta>, menu: seq<TemplateChoice>)
    ensures forall f :: f != SkeletonTemplate ==> QuestionOf(f, opts, menu) == FixedQuestion(f, opts)
    ensures var q := QuestionOf(SkeletonTemplate, opts, TemplateMenu(metas));
      q.kind == Select && q.initial == None && q.choices.Templates? && IsTemplateMenu(q.choices.menu, metas)
  {
    TemplateMenuCorrect(metas);
  }

  /** A field among the first k is asked about exactly when its question is needed. */
  lemma {:induction false} AskedUpToMembers(opts: Opts, k: nat, f: Field)
    requires k <= FieldCount
    ensures f in AskedUpTo(opts, k) <==> Position(f) < k && Asked(opts, f)
  {
    if k > 0 {
      AskedUpToMembers(opts, k - 1, f);
      var last := FieldAt(k - 1);
      assert Position(last) == k - 1;
    }
  }

  /** The asked fields come in strictly increasing question order, so none is asked twice. */
  lemma {:induction false} AskedUpToOrdered(opts: Opts, k: nat)
    requires k <= FieldCount
    ensures forall x, y :: 0 <= x < y < |AskedUpTo(opts, k)| ==>
      Position(AskedUpTo(opts, k)[x]) < Position(AskedUpTo(opts, k)[y])
    ensures forall x :: 0 <= x < |AskedUpTo(opts, k)| ==> Position(AskedUpTo(opts, k)[x]) < k
  {
    if k > 0 {
      AskedUpToOrdered(opts, k - 1);
      var last := FieldAt(k - 1);
      assert Position(last) == k - 1;
    }
  }

  /** A question is asked for an option exactly when its key is absent: a flag explicitly
      set, even to false, suppresses it. */
  lemma AskedIffAbsent(opts: Opts, f: Field)
    requires f != TwPlugins
    ensures f in AskedFields(opts) <==> Key(f) !in opts
  {
    AskedUpToMembers(opts, FieldCount, f);
  }

  /** The plugin question is asked unless all three plugin keys are given. */
  lemma PluginQuestionIffIncomplete(opts: Opts)
    ensures TwPlugins in AskedFields(opts) <==> !("forms" in opts && "typography" in opts && "lineclamp" in opts)
  {
    AskedUpToMembers(opts, FieldCount, TwPlugins);
  }

  /** No field is asked twice; in particular there is at most one plugin question. */
  lemma AskedFieldsDistinct(opts: Opts)
    ensures forall x, y :: 0 <= x < y < |AskedFields(opts)| ==> AskedFields(opts)[x] != AskedFields(opts)[y]
  {
    AskedUpToOrdered(opts, FieldCount);
  }

  // ---------------------------------------------------------------------------------------
  // Merging the answers

  /** The option keys that the plugin answer switches on: each element of an array answer
      (as a property key), each character of a string answer; nothing for other values. */
  function PluginNames(answer: Value): seq<string>
  {
    match answer
    case JArray(items) => seq(|items|, i requires 0 <= i < |items| => Text(items[i]))
    case JString(s) => seq(|s|, i requires 0 <= i < |s| => [s[i]])
    case _ => []
  }

  /** The plugin names of the response's `twplugins` answer, when it is neither undefined nor null. */
  function AnsweredPlugins(response: Opts): seq<string>
  {
    if "twplugins" in response && response["twplugins"] != JNull then PluginNames(response["twplugins"]) else []
  }

  /** `opts` with each of `names` set to true. */
  function SetTrue(opts: Opts, names: seq<string>): (r: Opts)
    ensures r.Keys == opts.Keys + (set n | n in names)
    ensures forall k :: k in r ==> r[k] == if k in names then JBool(true) else opts[k]
  {
    if names == [] then opts
    else SetTrue(opts, names[..|names| - 1])[names[|names| - 1] := JBool(true)]
  }

  /** The options askForMissingParams returns for the prompt engine's `response`. */
  function Merged(opts: Opts, response: Opts): Opts
  {
    Assign(Defaults(), Assign(SetTrue(opts, AnsweredPlugins(response)), response - {"twplugins"}))
  }

  /** The keys of the merged options: every default, every given option, every chosen plugin
      and every answer except the raw plugin answer. */
  lemma MergedKeys(opts: Opts, response: Opts)
    ensures Merged(opts, response).Keys ==
      DefaultKeys + opts.Keys + (set n | n in AnsweredPlugins(response)) + (response.Keys - {"twplugins"})
  {
    var answers := response - {"twplugins"};
    assert answers.Keys == response.Keys - {"twplugins"};
  }

  /** Which value wins for each key once the answers are merged: an answer (other than the raw
      plugin answer) beats a chosen plugin, which beats a given option, which beats the default. */
  lemma MergedValues(opts: Opts, response: Opts, k: string)
    ensures k in response && k != "twplugins" ==>
      k in Merged(opts, response) && Merged(opts, response)[k] == response[k]
    ensures (k !in response || k == "twplugins") && k in AnsweredPlugins(response) ==>
      k in Merged(opts, response) && Merged(opts, response)[k] == JBool(true)
    ensures (k !in response || k == "twplugins") && k !in AnsweredPlugins(response) && k in opts ==>
      k in Merged(opts, response) && Merged(opts, response)[k] == opts[k]
    ensures ((k !in response || k == "twplugins") && k !in AnsweredPlugins(response) && k !in opts
             && k in DefaultKeys) ==>
      k in Merged(opts, response) && Merged(opts, response)[k] == DefaultValue(k)
  {
    var answers := response - {"twplugins"};
    assert k in answers <==> k in response && k != "twplugins";
    Overlay(Defaults(), opts, AnsweredPlugins(response), answers, k);
  }

  /** The three layers of the merge, for any defaults d. */
  lemma Overlay(d: Opts, opts: Opts, names: seq<string>, answers: Opts, k: string)
    ensures var m := Assign(d, Assign(SetTrue(opts, names), answers));
      k in answers ==> k in m && m[k] == answers[k]
    ensures var m := Assign(d, Assign(SetTrue(opts, names), answers));
      k !in answers && k in names ==> k in m && m[k] == JBool(true)
    ensures var m := Assign(d, Assign(SetTrue(opts, names), answers));
      k !in answers && k !in names && k in opts ==> k in m && m[k] == opts[k]
    ensures var m := Assign(d, Assign(SetTrue(opts, names), answers));
      k !in answers && k !in names && k !in opts && k in d ==> k in m && m[k] == d[k]
  {
  }

  /** The tail of askForMissingParams: switch on the chosen plugins, drop the raw plugin answer,
      overlay the answers on the options and the options on the defaults. */
  method MergeAnswers(opts: Opts, response: Opts) returns (resolved: Opts)
    ensures resolved == Merged(opts, response)
  {
    var current := SwitchOn(opts, AnsweredPlugins(response));
    var answers := response - {"twplugins"};
    current := Assign(current, answers);
    resolved := Assign(Defaults(), current);
  }

  /** The loop `opts[plugin] = true` over the chosen plugins. */
  method SwitchOn(opts: Opts, names: seq<string>) returns (current: Opts)
    ensures current == SetTrue(opts, names)
  {
    current := opts;
    for i := 0 to |names|
      invariant current == SetTrue(opts, names[..i])
    {
      assert names[..i + 1][..i] == names[..i];
      current := current[names[i] := JBool(true)];
    }
    assert names[..|names|] == names;
  }

  // ---------------------------------------------------------------------------------------
  // askForMissingParams and main

  /** askForMissingParams with the prompt engine's `response` as input. */
  method AskForMissingParams(opts: Opts, metas: seq<TemplateMeta>, response: Opts)
    returns (questions: seq<Question>, resolved: Opts)
    ensures questions == QuestionsFor(AskedFields(opts), opts, TemplateMenu(metas))
    ensures resolved == Merged(opts, response)
  {
    questions := BuildQuestions(opts, metas);
    resolved := MergeAnswers(opts, response);
  }

  /** Option resolution in `main`: with the `quiet` key present, the defaults overlaid with the
      given options and no question; otherwise askForMissingParams. */
  method ResolveOptions(opts: Opts, metas: seq<TemplateMeta>, response: Opts)
    returns (questions: seq<Question>, resolved: Opts)
    ensures "quiet" in opts ==> questions == []
    ensures "quiet" in opts ==> resolved.Keys == DefaultKeys + opts.Keys
    ensures "quiet" in opts ==> forall k :: k in opts ==> resolved[k] == opts[k]
    ensures "quiet" in opts ==> forall k :: k in DefaultKeys && k !in opts ==> resolved[k] == DefaultValue(k)
    ensures "quiet" !in opts ==> questions == QuestionsFor(AskedFields(opts), opts, TemplateMenu(metas))
    ensures "quiet" !in opts ==> resolved == Merged(opts, response)
  {
    if "quiet" in opts {
      questions := [];
      resolved := Assign(Defaults(), opts);
    } else {
      questions, resolved := AskForMissingParams(opts, metas, response);
    }
  }
}
