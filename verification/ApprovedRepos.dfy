/** `_parse_simple_yaml` of core/repo_context_gatherer.py: the line-by-line parser
    of config/coder/approved_repos.yaml, and the rendering it inverts. */
module ApprovedRepos {
  import opened Folds
  import opened Scalars
  import opened Text
  import opened Wrappers

  /** A value of the parsed configuration. */
  datatype Node = Leaf(value: Scalar) | Items(items: seq<Scalar>) | Table(fields: map<string, Node>)

  type Dict = map<string, Node>

  /** What the parser raises: a ValueError for a line without a colon, an
      AttributeError for a list item under something that is not a list, and a
      KeyError or TypeError for a missing table. */
  datatype Error = NoColon | NotAList | NoTable

  datatype State = State(config: Dict, section: Option<string>, repoKey: Option<string>, listKey: Option<string>)

  type Parsed = Result<State, Error>

  const DEFAULTS := "inspection_defaults"
  const REPOS := "repos"

  // --------------------------------------------------------------------- lines

  /** The characters at which `str.splitlines` cuts. */
  predicate IsBreak(c: char) {
    var n := c as int;
    0x0A <= n <= 0x0D || 0x1C <= n <= 0x1E || n == 0x85 || n == 0x2028 || n == 0x2029
  }

  /** Line feed, vertical tab, form feed, carriage return, the three separators, next line,
      line separator and paragraph separator. */
  lemma {:induction false} IsBreakExact(c: char)
    ensures IsBreak(c) <==>
            c in {'\n', '\U{0B}', '\U{0C}', '\r', '\U{1C}', '\U{1D}', '\U{1E}', '\U{85}', '\U{2028}', '\U{2029}'}
  {
  }

  function BreakAt(s: string, from: nat): (i: nat)
    requires from <= |s|
    ensures from <= i <= |s| && (i < |s| ==> IsBreak(s[i]))
    ensures forall k :: from <= k < i ==> !IsBreak(s[k])
    decreases |s| - from
  {
    if from == |s| || IsBreak(s[from]) then from else BreakAt(s, from + 1)
  }

  /** `str.splitlines` on `s[from..]` */
  function SplitLines(s: string, from: nat): seq<string>
    requires from <= |s|
    decreases |s| - from
  {
    if from == |s| then []
    else
      var b := BreakAt(s, from);
      var next := if b + 1 < |s| && s[b] == '\r' && s[b + 1] == '\n' then b + 2 else if b < |s| then b + 1 else b;
      [s[from..b]] + (if b == |s| then [] else SplitLines(s, next))
  }

  function Indent(raw: string, from: nat): nat
    requires from <= |raw|
    decreases |raw| - from
  {
    if from < |raw| && raw[from] == ' ' then 1 + Indent(raw, from + 1) else 0
  }

  // --------------------------------------------------------------------- parser

  function ColonAt(s: string, from: nat): (i: nat)
    requires from <= |s|
    ensures from <= i <= |s| && (i < |s| ==> s[i] == ':')
    ensures forall k :: from <= k < i ==> s[k] != ':'
    decreases |s| - from
  {
    if from == |s| || s[from] == ':' then from else ColonAt(s, from + 1)
  }

  /** `_split_key_value` */
  function SplitKeyValue(line: string): Result<(string, Scalar), Error> {
    var c := ColonAt(line, 0);
    if c == |line| then Failure(NoColon) else Success((Strip(line[..c]), ParseScalar(line[c + 1..])))
  }

  predicate EndsWithColon(line: string) {
    line != "" && line[|line| - 1] == ':'
  }

  function Heading(line: string): string
    requires EndsWithColon(line)
  {
    Strip(line[..|line| - 1])
  }

  /** A key that counts as true: present and not empty. */
  predicate Truthy(key: Option<string>) {
    key.Some? && key.value != ""
  }

  function TableAt(d: Dict, key: string): Result<Dict, Error> {
    if key in d && d[key].Table? then Success(d[key].fields) else Failure(NoTable)
  }

  /** `d.setdefault(key, []).append(item)` */
  function AppendItem(d: Dict, key: string, item: Scalar): Result<Dict, Error> {
    if key !in d then Success(d[key := Items([item])])
    else if d[key].Items? then Success(d[key := Items(d[key].items + [item])])
    else Failure(NotAList)
  }

  /** `config["repos"][repo] = fields` */
  function WithRepo(config: Dict, repo: string, fields: Dict): Result<Dict, Error> {
    var repos :- TableAt(config, REPOS);
    Success(config[REPOS := Table(repos[repo := Table(fields)])])
  }

  function OnItem(st: State, item: Scalar): Parsed {
    if st.section == Some(REPOS) && Truthy(st.repoKey) && Truthy(st.listKey) then
      var repos :- TableAt(st.config, REPOS);
      var fields :- TableAt(repos, st.repoKey.value);
      var fields' :- AppendItem(fields, st.listKey.value, item);
      var config :- WithRepo(st.config, st.repoKey.value, fields');
      Success(st.(config := config))
    else if Truthy(st.section) && Truthy(st.listKey) then
      var table :- TableAt(st.config, st.section.value);
      var table' :- AppendItem(table, st.listKey.value, item);
      Success(st.(config := st.config[st.section.value := Table(table')]))
    else Success(st)
  }

  function OnTopLevel(st: State, line: string): Parsed {
    if EndsWithColon(line) then
      Success(State(st.config[Heading(line) := Table(map[])], Some(Heading(line)), None, None))
    else
      var pair :- SplitKeyValue(line);
      Success(State(st.config[pair.0 := Leaf(pair.1)], None, None, None))
  }

  function OnDefault(st: State, line: string): Parsed {
    var pair :- SplitKeyValue(line);
    var table :- if DEFAULTS in st.config then TableAt(st.config, DEFAULTS) else Success(map[]);
    Success(st.(config := st.config[DEFAULTS := Table(table[pair.0 := Leaf(pair.1)])],
                listKey := if EndsWithColon(line) then Some(pair.0) else None))
  }

  function OnRepo(st: State, line: string): Parsed
    requires EndsWithColon(line)
  {
    var repos :- if REPOS in st.config then TableAt(st.config, REPOS) else Success(map[]);
    Success(st.(config := st.config[REPOS := Table(repos[Heading(line) := Table(map[])])],
                repoKey := Some(Heading(line)), listKey := None))
  }

  function OnRepoField(st: State, line: string): Parsed
    requires st.repoKey.Some?
  {
    var repos :- TableAt(st.config, REPOS);
    var fields :- TableAt(repos, st.repoKey.value);
    if EndsWithColon(line) then
      var config :- WithRepo(st.config, st.repoKey.value, fields[Heading(line) := Items([])]);
      Success(st.(config := config, listKey := Some(Heading(line))))
    else
      var pair :- SplitKeyValue(line);
      var config :- WithRepo(st.config, st.repoKey.value, fields[pair.0 := Leaf(pair.1)]);
      Success(st.(config := config, listKey := None))
  }

  predicate IsIgnored(line: string) {
    line == "" || line[0] == '#'
  }

  predicate IsItem(line: string) {
    |line| >= 2 && line[0] == '-' && line[1] == ' '
  }

  /** One line, given its indentation and its stripped text. */
  function OnLine(st: State, indent: nat, line: string): Parsed {
    if IsIgnored(line) then Success(st)
    else if IsItem(line) then OnItem(st, ParseScalar(line[2..]))
    else if indent == 0 then OnTopLevel(st, line)
    else if st.section == Some(DEFAULTS) && indent == 2 then OnDefault(st, line)
    else if st.section == Some(REPOS) && indent == 2 && EndsWithColon(line) then OnRepo(st, line)
    else if st.section == Some(REPOS) && indent == 4 && Truthy(st.repoKey) then OnRepoField(st, line)
    else Success(st)
  }

  function Step(st: State, raw: string): Parsed {
    OnLine(st, Indent(raw, 0), Strip(raw))
  }

  const START := State(map[], None, None, None)

  function Parse(text: string): Result<Dict, Error> {
    var lines := SplitLines(text, 0);
    var st :- Fold(Step, START, lines, |lines|);
    Success(st.config)
  }

  method ParseSimpleYaml(text: string) returns (r: Result<Dict, Error>)
    ensures r == Parse(text)
  {
    var lines := SplitLines(text, 0);
    var st := START;
    for i := 0 to |lines|
      invariant Fold(Step, START, lines, i) == Success(st)
    {
      var next := Step(st, lines[i]);
      if next.Failure? {
        FoldFails(Step, START, lines, i + 1, |lines|);
        return Failure(next.error);
      }
      st := next.value;
    }
    return Success(st.config);
  }

  /** Comments and blank lines, anywhere, change nothing. */
  lemma {:induction false} IgnoredLineIsInvisible(before: seq<string>, raw: string, after: seq<string>)
    requires Strip(raw) == "" || Strip(raw)[0] == '#'
    ensures Fold(Step, START, before + [raw] + after, |before| + 1 + |after|)
         == Fold(Step, START, before + after, |before| + |after|)
  {
    assert forall st :: Step(st, raw) == Success(st);
    IdleItemIsInvisible(Step, START, before, raw, after);
  }

  // --------------------------------------------------------------------- errors

  /** The tables the parser writes to exist, and only `repos` keeps lists. */
  ghost predicate Inv(st: State) {
    && (st.section.Some? ==> st.section.value in st.config && st.config[st.section.value].Table?)
    && (st.repoKey.Some? ==>
          && st.section == Some(REPOS)
          && st.repoKey.value in st.config[REPOS].fields
          && st.config[REPOS].fields[st.repoKey.value].Table?)
    && (st.listKey.Some? ==>
          || (st.section == Some(DEFAULTS)
              && st.listKey.value in st.config[DEFAULTS].fields && st.config[DEFAULTS].fields[st.listKey.value].Leaf?)
          || (st.section == Some(REPOS) && Truthy(st.repoKey)
              && var fields := st.config[REPOS].fields[st.repoKey.value].fields;
                 st.listKey.value in fields && fields[st.listKey.value].Items?))
  }

  /** The line must be `key: value` where it stands. */
  predicate NeedsColon(st: State, indent: nat) {
    || indent == 0
    || (st.section == Some(DEFAULTS) && indent == 2)
    || (st.section == Some(REPOS) && indent == 4 && Truthy(st.repoKey))
  }

  /** A line raises exactly when it needs a colon and has none, or is a list item
      below a key without a value in `inspection_defaults`. */
  lemma {:induction false} RaisesExactly(st: State, indent: nat, line: string)
    requires Inv(st)
    ensures OnLine(st, indent, line).Success? ==> Inv(OnLine(st, indent, line).value)
    ensures OnLine(st, indent, line) == Failure(NoColon) <==>
            line != "" && line[0] != '#' && !("- " <= line) && ':' !in line && NeedsColon(st, indent)
    ensures OnLine(st, indent, line) == Failure(NotAList) <==>
            "- " <= line && st.section == Some(DEFAULTS) && st.listKey.Some? && st.listKey.value != ""
    ensures OnLine(st, indent, line) != Failure(NoTable)
  {
    assert |DEFAULTS| == 19 && |REPOS| == 5;
    var c := ColonAt(line, 0);
    assert ':' in line <==> c < |line|;
  }

  /** A list item without a list to go to changes nothing, and neither does another line
      at an indentation that its section does not use. */
  lemma {:induction false} StrayLineIsInvisible(st: State, indent: nat, line: string)
    requires Inv(st)
    ensures "- " <= line && (st.listKey.None? || st.listKey.value == "") ==> OnLine(st, indent, line) == Success(st)
    ensures !("- " <= line) && indent > 0
            && !(st.section == Some(DEFAULTS) && indent == 2) && !(st.section == Some(REPOS) && indent in {2, 4}) ==>
              OnLine(st, indent, line) == Success(st)
    ensures !("- " <= line) && st.section == Some(REPOS) && indent == 2 && (line == "" || line[|line| - 1] != ':') ==>
              OnLine(st, indent, line) == Success(st)
  {
  }

  lemma {:induction false} FoldKeepsInv(lines: seq<string>, n: nat)
    requires n <= |lines|
    ensures var r := Fold(Step, START, lines, n);
            if r.Success? then Inv(r.value) else r.error != NoTable
  {
    if n > 0 {
      FoldKeepsInv(lines, n - 1);
      var before := Fold(Step, START, lines, n - 1);
      if before.Success? {
        RaisesExactly(before.value, Indent(lines[n - 1], 0), Strip(lines[n - 1]));
      }
    }
  }

  /** No text makes the parser look for a table that is not there. */
  lemma {:induction false} NoTableIsMissing(text: string)
    ensures Parse(text) != Failure(NoTable)
  {
    var lines := SplitLines(text, 0);
    FoldKeepsInv(lines, |lines|);
  }
}
