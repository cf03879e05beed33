/** Rendering of approved-repository configurations and the proof that the parser
    reads every rendered configuration back. */
module ApprovedReposRoundTrip {
  import opened ApprovedRepos
  import opened Folds
  import opened Scalars
  import opened Text
  import opened Wrappers

  datatype Setting = Setting(key: string, value: Scalar)

  datatype Field = One(key: string, value: Scalar) | Many(key: string, items: seq<Scalar>)

  datatype Repo = Repo(key: string, fields: seq<Field>)

  /** A top-level part of the file. */
  datatype Part = TopLevel(setting: Setting) | Defaults(settings: seq<Setting>) | Repos(repos: seq<Repo>)

  // ------------------------------------------------------------------- meaning

  function SettingsMeaning(settings: seq<Setting>, n: nat): Dict
    requires n <= |settings|
  {
    if n == 0 then map[]
    else SettingsMeaning(settings, n - 1)[settings[n - 1].key := Leaf(settings[n - 1].value)]
  }

  function FieldMeaning(f: Field): Node {
    if f.One? then Leaf(f.value) else Items(f.items)
  }

  function FieldsMeaning(fields: seq<Field>, n: nat): Dict
    requires n <= |fields|
  {
    if n == 0 then map[] else FieldsMeaning(fields, n - 1)[fields[n - 1].key := FieldMeaning(fields[n - 1])]
  }

  function ReposMeaning(repos: seq<Repo>, n: nat): Dict
    requires n <= |repos|
  {
    if n == 0 then map[]
    else ReposMeaning(repos, n - 1)[repos[n - 1].key := Table(FieldsMeaning(repos[n - 1].fields, |repos[n - 1].fields|))]
  }

  function WithPart(config: Dict, part: Part): Dict {
    match part
    case TopLevel(setting) => config[setting.key := Leaf(setting.value)]
    case Defaults(settings) => config[DEFAULTS := Table(SettingsMeaning(settings, |settings|))]
    case Repos(repos) => config[REPOS := Table(ReposMeaning(repos, |repos|))]
  }

  /** The configuration a file stands for; a later part replaces an earlier one. */
  function Meaning(parts: seq<Part>, n: nat): Dict
    requires n <= |parts|
  {
    if n == 0 then map[] else WithPart(Meaning(parts, n - 1), parts[n - 1])
  }

  // ----------------------------------------------------------------- rendering

  function Pad(n: nat): string {
    seq(n, _ => ' ')
  }

  function SettingText(key: string, value: Scalar): string {
    key + (": " + Render(value))
  }

  function ItemText(value: Scalar): string {
    "- " + Render(value)
  }

  function DefaultLines(s: Setting): seq<string> {
    [Pad(2) + SettingText(s.key, s.value)]
  }

  function ItemLines(v: Scalar): seq<string> {
    [Pad(6) + ItemText(v)]
  }

  function FieldLines(f: Field): seq<string> {
    if f.One? then [Pad(4) + SettingText(f.key, f.value)]
    else [Pad(4) + (f.key + ":")] + Flat(f.items, ItemLines, |f.items|)
  }

  function RepoLines(repo: Repo): seq<string> {
    [Pad(2) + (repo.key + ":")] + Flat(repo.fields, FieldLines, |repo.fields|)
  }

  function PartLines(part: Part): seq<string> {
    match part
    case TopLevel(setting) => [Pad(0) + SettingText(setting.key, setting.value)]
    case Defaults(settings) => [Pad(0) + (DEFAULTS + ":")] + Flat(settings, DefaultLines, |settings|)
    case Repos(repos) => [Pad(0) + (REPOS + ":")] + Flat(repos, RepoLines, |repos|)
  }

  /** Every line ended by a newline. */
  function Joined(lines: seq<string>): string {
    if lines == [] then "" else lines[0] + "\n" + Joined(lines[1..])
  }

  function RenderFile(parts: seq<Part>): string {
    Joined(Flat(parts, PartLines, |parts|))
  }

  // ------------------------------------------------------------- what is rendered

  ghost predicate OneLine(s: string) {
    forall i :: 0 <= i < |s| ==> !IsBreak(s[i])
  }

  /** A key the format can carry: nothing in it reads as syntax. */
  ghost predicate ValidKey(key: string) {
    key != "" && Trimmed(key) && OneLine(key) && ':' !in key && key[0] != '#' && !IsItem(key)
  }

  ghost predicate ValidScalar(v: Scalar) {
    Readable(v) && (v.Str? ==> OneLine(v.text))
  }

  ghost predicate ValidSettings(settings: seq<Setting>) {
    forall i :: 0 <= i < |settings| ==> ValidKey(settings[i].key) && ValidScalar(settings[i].value)
  }

  ghost predicate ValidItems(items: seq<Scalar>) {
    forall i :: 0 <= i < |items| ==> ValidScalar(items[i])
  }

  ghost predicate ValidField(f: Field) {
    ValidKey(f.key) && if f.One? then ValidScalar(f.value) else ValidItems(f.items)
  }

  ghost predicate ValidRepo(repo: Repo) {
    ValidKey(repo.key) && forall i :: 0 <= i < |repo.fields| ==> ValidField(repo.fields[i])
  }

  ghost predicate ValidPart(part: Part) {
    match part
    case TopLevel(setting) => ValidKey(setting.key) && ValidScalar(setting.value)
    case Defaults(settings) => ValidSettings(settings)
    case Repos(repos) => forall i :: 0 <= i < |repos| ==> ValidRepo(repos[i])
  }

  ghost predicate ValidFile(parts: seq<Part>) {
    forall i :: 0 <= i < |parts| ==> ValidPart(parts[i])
  }

  // ------------------------------------------------------- single rendered lines

  lemma {:induction false} IndentOf(n: nat, core: string, from: nat)
    requires from <= n && core != "" && core[0] != ' '
    ensures Indent(Pad(n) + core, from) == n - from
    decreases n - from
  {
    if from < n {
      IndentOf(n, core, from + 1);
    } else {
      assert (Pad(n) + core)[n] == core[0];
    }
  }

  /** A padded line is handled by its indentation and its text. */
  lemma {:induction false} PaddedStep(st: State, n: nat, core: string)
    requires core != "" && Trimmed(core)
    ensures Step(st, Pad(n) + core) == OnLine(st, n, core)
  {
    assert IsSpace(' ');
    IndentOf(n, core, 0);
    StripPadded(Pad(n), core, "");
    assert Pad(n) + core + "" == Pad(n) + core;
  }

  ghost predicate IsSetting(line: string, key: string, value: Scalar) {
    && line != "" && Trimmed(line) && !IsIgnored(line) && !IsItem(line) && !EndsWithColon(line)
    && SplitKeyValue(line) == Success((key, value))
  }

  ghost predicate IsHeading(line: string, key: string) {
    line != "" && Trimmed(line) && !IsIgnored(line) && !IsItem(line) && EndsWithColon(line) && Heading(line) == key
  }

  ghost predicate IsListItem(line: string, value: Scalar) {
    line != "" && Trimmed(line) && !IsIgnored(line) && IsItem(line) && ParseScalar(line[2..]) == value
  }

  lemma {:induction false} ConcatAt(a: string, b: string)
    requires a != "" && b != ""
    ensures (a + b)[0] == a[0] && (a + b)[|a| + |b| - 1] == b[|b| - 1] && (a + b)[|a|] == b[0]
    ensures (a + b)[..|a|] == a && (a + b)[|a| + 1..] == b[1..]
    ensures forall k :: 0 <= k < |a| ==> (a + b)[k] == a[k]
  {
  }

  lemma {:induction false} SettingTextShape(key: string, value: Scalar)
    requires ValidKey(key) && ValidScalar(value)
    ensures var line := SettingText(key, value);
            && line != "" && Trimmed(line) && !IsIgnored(line) && !IsItem(line) && !EndsWithColon(line)
            && ColonAt(line, 0) == |key| && line[..|key|] == key && line[|key| + 1..] == " " + Render(value)
  {
    var line, tail := SettingText(key, value), ": " + Render(value);
    RenderedIsTrimmed(value);
    assert tail[0] == ':' && tail[1..] == " " + Render(value) && tail[|tail| - 1] == Render(value)[|Render(value)| - 1];
    ConcatAt(key, tail);
    assert ColonAt(line, 0) == |key|;
  }

  lemma {:induction false} ReadsAfterSpace(value: Scalar)
    requires Readable(value)
    ensures ParseScalar(" " + Render(value)) == value
  {
    assert IsSpace(' ');
    assert " " + Render(value) == " " + Render(value) + "";
    ScalarRoundTrip(value, " ", "");
  }

  lemma {:induction false} SettingTextReads(key: string, value: Scalar)
    requires ValidKey(key) && ValidScalar(value)
    ensures IsSetting(SettingText(key, value), key, value)
  {
    SettingTextShape(key, value);
    ReadsAfterSpace(value);
    StripTrims(key);
  }

  lemma {:induction false} HeadingTextReads(key: string)
    requires ValidKey(key)
    ensures IsHeading(key + ":", key)
  {
    var line := key + ":";
    assert line[..|line| - 1] == key && line[0] == key[0];
    assert |key| >= 2 ==> line[1] == key[1];
    StripTrims(key);
  }

  lemma {:induction false} ItemTextReads(value: Scalar)
    requires ValidScalar(value)
    ensures IsListItem(ItemText(value), value)
  {
    var line := ItemText(value);
    RenderedIsTrimmed(value);
    assert line[|line| - 1] == Render(value)[|Render(value)| - 1];
    assert line[2..] == "" + Render(value) + "";
    ScalarRoundTrip(value, "", "");
  }

  // ----------------------------------------------------- one line, in its place

  /** The state inside `inspection_defaults` with the settings read so far. */
  function InDefaults(config: Dict, table: Dict): State {
    State(config[DEFAULTS := Table(table)], Some(DEFAULTS), None, None)
  }

  /** The state inside repository `key` with the fields read so far. */
  function InRepo(config: Dict, repos: Dict, key: string, fields: Dict, listKey: Option<string>): State {
    State(config[REPOS := Table(repos[key := Table(fields)])], Some(REPOS), Some(key), listKey)
  }

  /** The state below the list `list` of that repository, with the items read so far. */
  function InList(config: Dict, repos: Dict, key: string, fields: Dict, list: string, items: seq<Scalar>): State {
    InRepo(config, repos, key, fields[list := Items(items)], Some(list))
  }

  /** Inside `repos`, whatever repository and list were read last. */
  ghost predicate InRepos(st: State, config: Dict, repos: Dict) {
    st.section == Some(REPOS) && st.config == config[REPOS := Table(repos)]
  }

  lemma {:induction false} Rewritten(d: Dict, key: string, before: Node, after: Node)
    ensures d[key := before][key := after] == d[key := after]
  {
  }

  lemma {:induction false} RepoRewritten(config: Dict, repos: Dict, key: string, before: Dict, after: Dict)
    ensures WithRepo(config[REPOS := Table(repos[key := Table(before)])], key, after)
         == Success(config[REPOS := Table(repos[key := Table(after)])])
  {
    Rewritten(repos, key, Table(before), Table(after));
    Rewritten(config, REPOS, Table(repos[key := Table(before)]), Table(repos[key := Table(after)]));
  }

  lemma {:induction false} OnSetting(st: State, line: string, key: string, value: Scalar)
    requires IsSetting(line, key, value)
    ensures Step(st, Pad(0) + line) == Success(State(st.config[key := Leaf(value)], None, None, None))
  {
    PaddedStep(st, 0, line);
  }

  lemma {:induction false} OnSection(st: State, line: string, key: string)
    requires IsHeading(line, key)
    ensures Step(st, Pad(0) + line) == Success(State(st.config[key := Table(map[])], Some(key), None, None))
  {
    PaddedStep(st, 0, line);
  }

  lemma {:induction false} OnDefaultSetting(config: Dict, table: Dict, line: string, key: string, value: Scalar)
    requires IsSetting(line, key, value)
    ensures Step(InDefaults(config, table), Pad(2) + line) == Success(InDefaults(config, table[key := Leaf(value)]))
  {
    PaddedStep(InDefaults(config, table), 2, line);
    Rewritten(config, DEFAULTS, Table(table), Table(table[key := Leaf(value)]));
  }

  lemma {:induction false} OnRepoHeading(st: State, config: Dict, repos: Dict, line: string, key: string)
    requires InRepos(st, config, repos) && IsHeading(line, key)
    ensures Step(st, Pad(2) + line) == Success(InRepo(config, repos, key, map[], None))
  {
    PaddedStep(st, 2, line);
    assert |DEFAULTS| == 19 && |REPOS| == 5;
    Rewritten(config, REPOS, Table(repos), Table(repos[key := Table(map[])]));
  }

  lemma {:induction false} OnFieldSetting(config: Dict, repos: Dict, key: string, fields: Dict, listKey: Option<string>,
                                          line: string, name: string, value: Scalar)
    requires key != "" && IsSetting(line, name, value)
    ensures Step(InRepo(config, repos, key, fields, listKey), Pad(4) + line)
         == Success(InRepo(config, repos, key, fields[name := Leaf(value)], None))
  {
    PaddedStep(InRepo(config, repos, key, fields, listKey), 4, line);
    RepoRewritten(config, repos, key, fields, fields[name := Leaf(value)]);
  }

  lemma {:induction false} OnListHeading(config: Dict, repos: Dict, key: string, fields: Dict, listKey: Option<string>,
                                         line: string, name: string)
    requires key != "" && IsHeading(line, name)
    ensures Step(InRepo(config, repos, key, fields, listKey), Pad(4) + line)
         == Success(InList(config, repos, key, fields, name, []))
  {
    PaddedStep(InRepo(config, repos, key, fields, listKey), 4, line);
    RepoRewritten(config, repos, key, fields, fields[name := Items([])]);
  }

  lemma {:induction false} OnListItem(config: Dict, repos: Dict, key: string, fields: Dict, list: string,
                                      items: seq<Scalar>, line: string, value: Scalar)
    requires key != "" && list != "" && IsListItem(line, value)
    ensures Step(InList(config, repos, key, fields, list, items), Pad(6) + line)
         == Success(InList(config, repos, key, fields, list, items + [value]))
  {
    PaddedStep(InList(config, repos, key, fields, list, items), 6, line);
    Rewritten(fields, list, Items(items), Items(items + [value]));
    RepoRewritten(config, repos, key, fields[list := Items(items)], fields[list := Items(items + [value])]);
  }

  // --------------------------------------------------------------- running lines

  // The runs below use of `Step` only what the lemmas above say.

  type Stepper = (State, string) -> Parsed

  ghost predicate ReadsDefaults(step: Stepper) {
    forall config: Dict, table: Dict, line: string, key: string, value: Scalar :: IsSetting(line, key, value) ==>
      step(InDefaults(config, table), Pad(2) + line) == Success(InDefaults(config, table[key := Leaf(value)]))
  }

  ghost predicate ReadsItems(step: Stepper) {
    forall config: Dict, repos: Dict, key: string, fields: Dict, list: string, items: seq<Scalar>, line: string,
           value: Scalar ::
      key != "" && list != "" && IsListItem(line, value) ==>
        step(InList(config, repos, key, fields, list, items), Pad(6) + line)
          == Success(InList(config, repos, key, fields, list, items + [value]))
  }

  ghost predicate ReadsFields(step: Stepper) {
    && (forall config: Dict, repos: Dict, key: string, fields: Dict, listKey: Option<string>, line: string, name: string,
               value: Scalar ::
          key != "" && IsSetting(line, name, value) ==>
            step(InRepo(config, repos, key, fields, listKey), Pad(4) + line)
              == Success(InRepo(config, repos, key, fields[name := Leaf(value)], None)))
    && (forall config: Dict, repos: Dict, key: string, fields: Dict, listKey: Option<string>, line: string, name: string ::
          key != "" && IsHeading(line, name) ==>
            step(InRepo(config, repos, key, fields, listKey), Pad(4) + line)
              == Success(InList(config, repos, key, fields, name, [])))
  }

  ghost predicate ReadsRepos(step: Stepper) {
    forall st: State, config: Dict, repos: Dict, line: string, key: string :: InRepos(st, config, repos) && IsHeading(line, key) ==>
      step(st, Pad(2) + line) == Success(InRepo(config, repos, key, map[], None))
  }

  ghost predicate ReadsTop(step: Stepper) {
    && (forall st: State, line: string, key: string, value: Scalar :: IsSetting(line, key, value) ==>
          step(st, Pad(0) + line) == Success(State(st.config[key := Leaf(value)], None, None, None)))
    && (forall st: State, line: string, key: string :: IsHeading(line, key) ==>
          step(st, Pad(0) + line) == Success(State(st.config[key := Table(map[])], Some(key), None, None)))
  }

  ghost predicate Reads(step: Stepper) {
    ReadsTop(step) && ReadsDefaults(step) && ReadsRepos(step) && ReadsFields(step) && ReadsItems(step)
  }

  lemma {:induction false} StepReadsDefaults()
    ensures ReadsDefaults(Step)
  {
    forall config: Dict, table: Dict, line: string, key: string, value: Scalar | IsSetting(line, key, value)
      ensures Step(InDefaults(config, table), Pad(2) + line) == Success(InDefaults(config, table[key := Leaf(value)]))
    {
      OnDefaultSetting(config, table, line, key, value);
    }
  }

  lemma {:induction false} StepReadsRepos()
    ensures ReadsRepos(Step)
  {
    forall st: State, config: Dict, repos: Dict, line: string, key: string | InRepos(st, config, repos) && IsHeading(line, key)
      ensures Step(st, Pad(2) + line) == Success(InRepo(config, repos, key, map[], None))
    {
      OnRepoHeading(st, config, repos, line, key);
    }
  }

  lemma {:induction false} StepReadsFields()
    ensures ReadsFields(Step)
  {
    forall config: Dict, repos: Dict, key: string, fields: Dict, listKey: Option<string>, line: string, name: string,
           value: Scalar
      | key != "" && IsSetting(line, name, value)
      ensures Step(InRepo(config, repos, key, fields, listKey), Pad(4) + line)
           == Success(InRepo(config, repos, key, fields[name := Leaf(value)], None))
    {
      OnFieldSetting(config, repos, key, fields, listKey, line, name, value);
    }
    forall config: Dict, repos: Dict, key: string, fields: Dict, listKey: Option<string>, line: string, name: string
      | key != "" && IsHeading(line, name)
      ensures Step(InRepo(config, repos, key, fields, listKey), Pad(4) + line) == Success(InList(config, repos, key, fields, name, []))
    {
      OnListHeading(config, repos, key, fields, listKey, line, name);
    }
  }

  lemma {:induction false} StepReadsItems()
    ensures ReadsItems(Step)
  {
    forall config: Dict, repos: Dict, key: string, fields: Dict, list: string, items: seq<Scalar>, line: string,
           value: Scalar
      | key != "" && list != "" && IsListItem(line, value)
      ensures Step(InList(config, repos, key, fields, list, items), Pad(6) + line)
           == Success(InList(config, repos, key, fields, list, items + [value]))
    {
      OnListItem(config, repos, key, fields, list, items, line, value);
    }
  }

  lemma {:induction false} StepReads()
    ensures Reads(Step)
  {
    forall st: State, line: string, key: string, value: Scalar | IsSetting(line, key, value)
      ensures Step(st, Pad(0) + line) == Success(State(st.config[key := Leaf(value)], None, None, None))
    {
      OnSetting(st, line, key, value);
    }
    forall st: State, line: string, key: string | IsHeading(line, key)
      ensures Step(st, Pad(0) + line) == Success(State(st.config[key := Table(map[])], Some(key), None, None))
    {
      OnSection(st, line, key);
    }
    StepReadsDefaults();
    StepReadsRepos();
    StepReadsFields();
    StepReadsItems();
  }

  lemma {:induction false} DefaultsRun(step: Stepper, config: Dict, settings: seq<Setting>)
    requires ReadsDefaults(step) && ValidSettings(settings)
    ensures Runs(step, InDefaults(config, map[]), Flat(settings, DefaultLines, |settings|),
                 InDefaults(config, SettingsMeaning(settings, |settings|)))
  {
    var states := seq(|settings| + 1, i requires 0 <= i <= |settings| => InDefaults(config, SettingsMeaning(settings, i)));
    forall i | 0 <= i < |settings|
      ensures Runs(step, states[i], DefaultLines(settings[i]), states[i + 1])
    {
      SettingTextReads(settings[i].key, settings[i].value);
      RunsOne(step, states[i], Pad(2) + SettingText(settings[i].key, settings[i].value), states[i + 1]);
    }
    FlatRuns(step, states, settings, DefaultLines, |settings|);
  }

  /** The state after the first `n` items of a list. */
  function AfterItems(config: Dict, repos: Dict, key: string, fields: Dict, f: Field, n: nat): State
    requires f.Many? && n <= |f.items|
  {
    InList(config, repos, key, fields, f.key, f.items[..n])
  }

  lemma {:induction false} OneMoreItem(step: Stepper, config: Dict, repos: Dict, key: string, fields: Dict,
                                       list: string, before: seq<Scalar>, value: Scalar)
    requires ReadsItems(step) && key != "" && list != "" && ValidScalar(value)
    ensures Runs(step, InList(config, repos, key, fields, list, before), ItemLines(value),
                 InList(config, repos, key, fields, list, before + [value]))
  {
    ItemTextReads(value);
    RunsOne(step, InList(config, repos, key, fields, list, before), Pad(6) + ItemText(value),
            InList(config, repos, key, fields, list, before + [value]));
  }

  lemma {:induction false} ItemRuns(step: Stepper, config: Dict, repos: Dict, key: string, fields: Dict, f: Field,
                                    n: nat)
    requires ReadsItems(step) && key != "" && ValidField(f) && f.Many? && n < |f.items|
    ensures Runs(step, AfterItems(config, repos, key, fields, f, n), ItemLines(f.items[n]),
                 AfterItems(config, repos, key, fields, f, n + 1))
  {
    assert f.items[..n + 1] == f.items[..n] + [f.items[n]];
    OneMoreItem(step, config, repos, key, fields, f.key, f.items[..n], f.items[n]);
  }

  lemma {:induction false} ItemsRun(step: Stepper, config: Dict, repos: Dict, key: string, fields: Dict, f: Field)
    requires ReadsItems(step) && key != "" && ValidField(f) && f.Many?
    ensures Runs(step, AfterItems(config, repos, key, fields, f, 0), Flat(f.items, ItemLines, |f.items|),
                 AfterItems(config, repos, key, fields, f, |f.items|))
  {
    var states := seq(|f.items| + 1, i requires 0 <= i <= |f.items| => AfterItems(config, repos, key, fields, f, i));
    forall i | 0 <= i < |f.items|
      ensures Runs(step, states[i], ItemLines(f.items[i]), states[i + 1])
    {
      ItemRuns(step, config, repos, key, fields, f, i);
    }
    FlatRuns(step, states, f.items, ItemLines, |f.items|);
  }

  function ListAfter(f: Field): Option<string> {
    if f.One? then None else Some(f.key)
  }

  lemma {:induction false} FieldRuns(step: Stepper, config: Dict, repos: Dict, key: string, fields: Dict,
                                     listKey: Option<string>, f: Field)
    requires ReadsFields(step) && ReadsItems(step) && key != "" && ValidField(f)
    ensures Runs(step, InRepo(config, repos, key, fields, listKey), FieldLines(f),
                 InRepo(config, repos, key, fields[f.key := FieldMeaning(f)], ListAfter(f)))
  {
    var st := InRepo(config, repos, key, fields, listKey);
    if f.One? {
      SettingTextReads(f.key, f.value);
      RunsOne(step, st, Pad(4) + SettingText(f.key, f.value), InRepo(config, repos, key, fields[f.key := Leaf(f.value)], None));
    } else {
      var middle := InList(config, repos, key, fields, f.key, []);
      HeadingTextReads(f.key);
      RunsOne(step, st, Pad(4) + (f.key + ":"), middle);
      ItemsRun(step, config, repos, key, fields, f);
      assert f.items[..0] == [] && f.items[..|f.items|] == f.items;
      RunsOn(step, st, [Pad(4) + (f.key + ":")], middle, Flat(f.items, ItemLines, |f.items|),
             InList(config, repos, key, fields, f.key, f.items));
    }
  }

  /** The state after the first `n` fields of a repository. */
  function AfterFields(config: Dict, repos: Dict, repo: Repo, n: nat): State
    requires n <= |repo.fields|
  {
    InRepo(config, repos, repo.key, FieldsMeaning(repo.fields, n), if n == 0 then None else ListAfter(repo.fields[n - 1]))
  }

  lemma {:induction false} FieldRunsAt(step: Stepper, config: Dict, repos: Dict, repo: Repo, n: nat)
    requires ReadsFields(step) && ReadsItems(step) && ValidRepo(repo) && n < |repo.fields|
    ensures Runs(step, AfterFields(config, repos, repo, n), FieldLines(repo.fields[n]), AfterFields(config, repos, repo, n + 1))
  {
    var st := AfterFields(config, repos, repo, n);
    FieldRuns(step, config, repos, repo.key, FieldsMeaning(repo.fields, n), st.listKey, repo.fields[n]);
  }

  lemma {:induction false} FieldsRun(step: Stepper, config: Dict, repos: Dict, repo: Repo)
    requires ReadsFields(step) && ReadsItems(step) && ValidRepo(repo)
    ensures Runs(step, AfterFields(config, repos, repo, 0), Flat(repo.fields, FieldLines, |repo.fields|),
                 AfterFields(config, repos, repo, |repo.fields|))
  {
    var fields := repo.fields;
    var states := seq(|fields| + 1, i requires 0 <= i <= |fields| => AfterFields(config, repos, repo, i));
    forall i | 0 <= i < |fields|
      ensures Runs(step, states[i], FieldLines(fields[i]), states[i + 1])
    {
      FieldRunsAt(step, config, repos, repo, i);
    }
    FlatRuns(step, states, fields, FieldLines, |fields|);
  }

  lemma {:induction false} RepoRuns(step: Stepper, st: State, config: Dict, repos: Dict, repo: Repo)
    requires ReadsRepos(step) && ReadsFields(step) && ReadsItems(step) && InRepos(st, config, repos) && ValidRepo(repo)
    ensures Runs(step, st, RepoLines(repo), AfterFields(config, repos, repo, |repo.fields|))
  {
    var start := AfterFields(config, repos, repo, 0);
    HeadingTextReads(repo.key);
    RunsOne(step, st, Pad(2) + (repo.key + ":"), start);
    FieldsRun(step, config, repos, repo);
    RunsOn(step, st, [Pad(2) + (repo.key + ":")], start, Flat(repo.fields, FieldLines, |repo.fields|),
           AfterFields(config, repos, repo, |repo.fields|));
  }

  /** The state after the first `n` repositories. */
  function AfterRepos(config: Dict, repos: seq<Repo>, n: nat): (st: State)
    requires n <= |repos|
    ensures InRepos(st, config, ReposMeaning(repos, n))
  {
    if n == 0 then State(config[REPOS := Table(map[])], Some(REPOS), None, None)
    else AfterFields(config, ReposMeaning(repos, n - 1), repos[n - 1], |repos[n - 1].fields|)
  }

  lemma {:induction false} ReposRun(step: Stepper, config: Dict, repos: seq<Repo>)
    requires ReadsRepos(step) && ReadsFields(step) && ReadsItems(step)
    requires forall i :: 0 <= i < |repos| ==> ValidRepo(repos[i])
    ensures Runs(step, AfterRepos(config, repos, 0), Flat(repos, RepoLines, |repos|), AfterRepos(config, repos, |repos|))
  {
    var states := seq(|repos| + 1, i requires 0 <= i <= |repos| => AfterRepos(config, repos, i));
    forall i | 0 <= i < |repos|
      ensures Runs(step, states[i], RepoLines(repos[i]), states[i + 1])
    {
      RepoRuns(step, states[i], config, ReposMeaning(repos, i), repos[i]);
    }
    FlatRuns(step, states, repos, RepoLines, |repos|);
  }

  lemma {:induction false} SectionKeys()
    ensures ValidKey(DEFAULTS) && ValidKey(REPOS)
  {
    assert |DEFAULTS| == 19 && |REPOS| == 5;
  }

  function AfterPart(config: Dict, part: Part): (st: State)
    ensures st.config == WithPart(config, part)
  {
    match part
    case TopLevel(setting) => State(config[setting.key := Leaf(setting.value)], None, None, None)
    case Defaults(settings) => InDefaults(config, SettingsMeaning(settings, |settings|))
    case Repos(repos) => AfterRepos(config, repos, |repos|)
  }

  lemma {:induction false} PartRuns(step: Stepper, st: State, part: Part)
    requires Reads(step) && ValidPart(part)
    ensures Runs(step, st, PartLines(part), AfterPart(st.config, part))
  {
    SectionKeys();
    match part
    case TopLevel(setting) =>
      SettingTextReads(setting.key, setting.value);
      RunsOne(step, st, Pad(0) + SettingText(setting.key, setting.value), AfterPart(st.config, part));
    case Defaults(settings) =>
      HeadingTextReads(DEFAULTS);
      RunsOne(step, st, Pad(0) + (DEFAULTS + ":"), InDefaults(st.config, map[]));
      DefaultsRun(step, st.config, settings);
      RunsOn(step, st, [Pad(0) + (DEFAULTS + ":")], InDefaults(st.config, map[]),
             Flat(settings, DefaultLines, |settings|), AfterPart(st.config, part));
    case Repos(repos) =>
      HeadingTextReads(REPOS);
      RunsOne(step, st, Pad(0) + (REPOS + ":"), AfterRepos(st.config, repos, 0));
      ReposRun(step, st.config, repos);
      RunsOn(step, st, [Pad(0) + (REPOS + ":")], AfterRepos(st.config, repos, 0),
             Flat(repos, RepoLines, |repos|), AfterPart(st.config, part));
  }

  /** The state after the first `n` parts. */
  function AfterParts(parts: seq<Part>, n: nat): (st: State)
    requires n <= |parts|
    ensures st.config == Meaning(parts, n)
  {
    if n == 0 then START else AfterPart(Meaning(parts, n - 1), parts[n - 1])
  }

  lemma {:induction false} FileRuns(step: Stepper, parts: seq<Part>)
    requires Reads(step) && ValidFile(parts)
    ensures Runs(step, START, Flat(parts, PartLines, |parts|), AfterParts(parts, |parts|))
  {
    var states := seq(|parts| + 1, i requires 0 <= i <= |parts| => AfterParts(parts, i));
    forall i | 0 <= i < |parts|
      ensures Runs(step, states[i], PartLines(parts[i]), states[i + 1])
    {
      PartRuns(step, states[i], parts[i]);
    }
    FlatRuns(step, states, parts, PartLines, |parts|);
  }

  // -------------------------------------------------------------- whole files

  ghost predicate AllOneLine(lines: seq<string>) {
    forall line :: line in lines ==> OneLine(line)
  }

  lemma {:induction false} FirstLine(text: string, from: nat, b: nat)
    requires from <= b < |text| && OneLine(text[from..b]) && text[b] == '\n'
    ensures SplitLines(text, from) == [text[from..b]] + SplitLines(text, b + 1)
  {
    assert forall k :: from <= k < b ==> text[k] == text[from..b][k - from];
    assert BreakAt(text, from) == b;
  }

  /** `text[from..]` consists of `lines`, each ended by a newline. */
  ghost predicate Holds(text: string, from: nat, lines: seq<string>)
    requires from <= |text|
    decreases |lines|
  {
    if lines == [] then from == |text|
    else
      var b := from + |lines[0]|;
      b < |text| && text[from..b] == lines[0] && text[b] == '\n' && Holds(text, b + 1, lines[1..])
  }

  lemma {:induction false} JoinedHolds(text: string, from: nat, lines: seq<string>)
    requires from <= |text| && text[from..] == Joined(lines)
    ensures Holds(text, from, lines)
    decreases |lines|
  {
    if lines != [] {
      var suffix, n := text[from..], |lines[0]|;
      assert suffix[..n] == lines[0] && suffix[n] == '\n' && suffix[n + 1..] == Joined(lines[1..]);
      JoinedHolds(text, from + n + 1, lines[1..]);
    }
  }

  /** Cutting such a text into lines gives the lines back. */
  lemma {:induction false} SplitHolds(text: string, from: nat, lines: seq<string>)
    requires from <= |text| && Holds(text, from, lines) && AllOneLine(lines)
    ensures SplitLines(text, from) == lines
    decreases |lines|
  {
    if lines != [] {
      var first, rest := lines[0], lines[1..];
      assert first in lines && lines == [first] + rest;
      FirstLine(text, from, from + |first|);
      SplitHolds(text, from + |first| + 1, rest);
    }
  }

  lemma {:induction false} FlatIsOneLine<P>(items: seq<P>, render: P -> seq<string>)
    requires forall i :: 0 <= i < |items| ==> AllOneLine(render(items[i]))
    ensures AllOneLine(Flat(items, render, |items|))
  {
    forall line | line in Flat(items, render, |items|)
      ensures OneLine(line)
    {
      var i := FlatMember(items, render, |items|, line);
    }
  }

  lemma {:induction false} RenderedIsOneLine(v: Scalar)
    requires ValidScalar(v)
    ensures OneLine(Render(v))
  {
  }

  lemma {:induction false} FieldIsOneLine(f: Field)
    requires ValidField(f)
    ensures AllOneLine(FieldLines(f))
  {
    if f.One? {
      RenderedIsOneLine(f.value);
    } else {
      forall i | 0 <= i < |f.items|
        ensures AllOneLine(ItemLines(f.items[i]))
      {
        RenderedIsOneLine(f.items[i]);
      }
      FlatIsOneLine(f.items, ItemLines);
    }
  }

  lemma {:induction false} RepoIsOneLine(repo: Repo)
    requires ValidRepo(repo)
    ensures AllOneLine(RepoLines(repo))
  {
    forall i | 0 <= i < |repo.fields|
      ensures AllOneLine(FieldLines(repo.fields[i]))
    {
      FieldIsOneLine(repo.fields[i]);
    }
    FlatIsOneLine(repo.fields, FieldLines);
  }

  lemma {:induction false} PartIsOneLine(part: Part)
    requires ValidPart(part)
    ensures AllOneLine(PartLines(part))
  {
    SectionKeys();
    match part
    case TopLevel(setting) =>
      RenderedIsOneLine(setting.value);
    case Defaults(settings) =>
      forall i | 0 <= i < |settings|
        ensures AllOneLine(DefaultLines(settings[i]))
      {
        RenderedIsOneLine(settings[i].value);
      }
      FlatIsOneLine(settings, DefaultLines);
    case Repos(repos) =>
      forall i | 0 <= i < |repos|
        ensures AllOneLine(RepoLines(repos[i]))
      {
        RepoIsOneLine(repos[i]);
      }
      FlatIsOneLine(repos, RepoLines);
  }

  /** Parsing a rendered file gives the configuration the file stands for. */
  lemma {:induction false} RoundTrip(parts: seq<Part>)
    requires ValidFile(parts)
    ensures Parse(RenderFile(parts)) == Success(Meaning(parts, |parts|))
  {
    var lines := Flat(parts, PartLines, |parts|);
    forall i | 0 <= i < |parts|
      ensures AllOneLine(PartLines(parts[i]))
    {
      PartIsOneLine(parts[i]);
    }
    FlatIsOneLine(parts, PartLines);
    JoinedHolds(Joined(lines), 0, lines);
    SplitHolds(Joined(lines), 0, lines);
    StepReads();
    FileRuns(Step, parts);
  }

  /** A list below `inspection_defaults` is outside the format: its first item
      raises, whatever the key, the item and its indentation. */
  lemma {:induction false} ListUnderDefaultsRaises(st: State, key: string, indent: nat, item: string)
    requires Inv(st) && st.section == Some(DEFAULTS) && ValidKey(key)
    ensures var heading := OnLine(st, 2, key + ":");
            heading.Success? && OnLine(heading.value, indent, "- " + item) == Failure(NotAList)
  {
    var line := key + ":";
    HeadingTextReads(key);
    assert ColonAt(line, 0) == |key| && line[..|key|] == key;
    StripTrims(key);
    RaisesExactly(st, 2, line);
    RaisesExactly(OnLine(st, 2, line).value, indent, "- " + item);
  }
}
