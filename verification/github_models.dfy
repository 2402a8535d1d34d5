/**
 * The GitHub Models client: where its token, model id and endpoint come from
 * (properties first, then a `.env` file), and how it turns aggregates into a
 * chat-completion request and the response into a summary text. The HTTP
 * exchange and Jackson's rendering of non-text JSON are inputs.
 */
module GithubModels {
  import opened Base
  import opened JavaString
  import opened Numerals
  import opened Errors
  import opened Entities
  import opened Aggregation

  /** The three settings; a property that is not set arrives as an empty string. */
  datatype Config = Config(token: Option<string>, modelsUrl: Option<string>, modelId: Option<string>)

  /** A `KEY=value` line of the `.env` file, key and value trimmed. */
  datatype EnvEntry = EnvEntry(key: string, value: string)

  /** The key and the raw value of a line, or nothing for a blank line, a comment, or a line without a key. */
  function SplitEnvLine(line: string): (r: Option<(string, string)>)
    ensures r.Some? ==> r.value.0 != [] && !IsTrimmable(r.value.0[0])
  {
    var l := Trim(line);
    if l == [] || l[0] == '#' then None
    else
      var idx := IndexOf(l, '=');
      if idx.None? || idx.value == 0 then None
      else
        var k := Trim(l[..idx.value]);
        NonTrimmableFirstSurvives(l[..idx.value]);
        Some((k, Trim(l[idx.value + 1..])))
  }

  /** A string that starts with a non-trimmable character keeps it through `trim()`. */
  lemma NonTrimmableFirstSurvives(s: string)
    requires s != [] && !IsTrimmable(s[0])
    ensures Trim(s) != [] && Trim(s)[0] == s[0]
  {
  }

  /** `startsWith("\"") && endsWith("\"")` or the same with single quotes; a lone quote passes both tests. */
  predicate Quoted(v: string) {
    v != [] && ((v[0] == '"' && v[|v| - 1] == '"') || (v[0] == '\'' && v[|v| - 1] == '\''))
  }

  /** The value with one pair of surrounding quotes removed, as intended: only when there is a pair. */
  function Unquote(v: string): (r: string)
    ensures Quoted(v) && |v| >= 2 ==> r == v[1..|v| - 1]
    ensures !(Quoted(v) && |v| >= 2) ==> r == v
    ensures |r| <= |v|
  {
    if Quoted(v) && |v| >= 2 then v[1..|v| - 1] else v
  }

  /** The quote removal as written: `substring(1, length - 1)` on a lone quote throws. */
  function UnquoteAsWritten(v: string): (r: Result<string>)
    ensures r.Err? <==> v == "\"" || v == "'"
    ensures r.Err? ==> r.error.kind == Internal
    ensures r.Ok? ==> r.value == Unquote(v)
  {
    if Quoted(v) then
      if |v| < 2 then Err(Error(Internal, Some("begin 1, end 0, length 1")))
      else Ok(v[1..|v| - 1])
    else Ok(v)
  }

  /** One line of the `.env` file, with the intended quote removal. */
  function ParseEnvLine(line: string): (r: Option<EnvEntry>)
    ensures r.Some? <==> SplitEnvLine(line).Some?
    ensures r.Some? ==> r.value.key != [] && !IsTrimmable(r.value.key[0])
  {
    var kv := SplitEnvLine(line);
    if kv.None? then None else Some(EnvEntry(kv.value.0, Unquote(kv.value.1)))
  }

  /** One line of the `.env` file as written: a value that is a lone quote makes it throw. */
  function ParseEnvLineAsWritten(line: string): (r: Result<Option<EnvEntry>>)
    ensures r.Ok? <==> (SplitEnvLine(line).None? || UnquoteAsWritten(SplitEnvLine(line).value.1).Ok?)
    ensures r.Ok? ==> r.value == ParseEnvLine(line)
  {
    var kv := SplitEnvLine(line);
    if kv.None? then Ok(None)
    else
      var v := UnquoteAsWritten(kv.value.1);
      if v.Err? then Err(v.error) else Ok(Some(EnvEntry(kv.value.0, v.value)))
  }

  /** A key as a `.env` file writes it: non-empty, no '=', not a comment, no space at either end. */
  predicate PlainKey(k: string) {
    k != [] && '=' !in k && k[0] != '#' && !IsTrimmable(k[0]) && !IsTrimmable(k[|k| - 1])
  }

  /** The first '=' after a key without one is the one right after the key. */
  lemma IndexAfterKey(k: string, rest: string)
    requires '=' !in k
    ensures IndexOf(k + "=" + rest, '=') == Some(|k|)
  {
    var s := k + "=" + rest;
    assert s[|k|] == '=';
    var r := IndexOf(s, '=');
    assert r.Some?;
  }

  /** The split of `k=v` for a plain key and a value with no space at either end. */
  lemma SplitEnvLineOf(k: string, v: string)
    requires PlainKey(k) && v != [] && !IsTrimmable(v[0]) && !IsTrimmable(v[|v| - 1])
    ensures SplitEnvLine(k + "=" + v) == Some((k, v))
  {
    var line := k + "=" + v;
    assert line[0] == k[0] && line[|line| - 1] == v[|v| - 1];
    TrimOfTrimmed(line);
    assert line != [] && line[0] != '#';
    IndexAfterKey(k, v);
    assert line[..|k|] == k;
    TrimOfTrimmed(k);
    assert line[|k| + 1..] == v;
    TrimOfTrimmed(v);
  }

  /** A double-quoted value is read back exactly, whatever it contains. */
  lemma EnvLineRoundTrip(k: string, v: string)
    requires PlainKey(k)
    ensures ParseEnvLine(k + "=" + ("\"" + v + "\"")) == Some(EnvEntry(k, v))
  {
    var q := "\"" + v + "\"";
    SplitEnvLineOf(k, q);
    assert SplitEnvLine(k + "=" + q) == Some((k, q));
    assert Quoted(q) && |q| >= 2;
    assert q[1..|q| - 1] == v;
    assert Unquote(q) == v;
  }

  /** The discrepancy: `KEY="` makes the as-written parser throw, where the intended one reads an empty-ish value. */
  lemma LoneQuoteThrows(k: string)
    requires PlainKey(k)
    ensures ParseEnvLineAsWritten(k + "=" + "\"").Err?
    ensures ParseEnvLine(k + "=" + "\"") == Some(EnvEntry(k, "\""))
  {
    SplitEnvLineOf(k, "\"");
  }

  /** The three settings a `.env` file may fill. */
  datatype Setting = Token | ModelId | ModelsUrl

  /** The `switch` over the key: the setting it names, if any. */
  function SettingOf(key: string): Option<Setting> {
    if key == "GITHUB_TOKEN" then Some(Token)
    else if key == "MODEL_ID" then Some(ModelId)
    else if key == "GITHUB_MODELS_URL" then Some(ModelsUrl)
    else None
  }

  function Slot(c: Config, s: Setting): Option<string> {
    match s
    case Token => c.token
    case ModelId => c.modelId
    case ModelsUrl => c.modelsUrl
  }

  /** An entry fills its setting only while that setting is null or blank; unknown keys are ignored. */
  function Fill(c: Config, e: EnvEntry): (r: Config)
    ensures forall s :: Some(s) != SettingOf(e.key) ==> Slot(r, s) == Slot(c, s)
    ensures SettingOf(e.key).Some? && NullOrBlank(Slot(c, SettingOf(e.key).value)) ==>
      Slot(r, SettingOf(e.key).value) == Some(e.value)
    ensures SettingOf(e.key).Some? && !NullOrBlank(Slot(c, SettingOf(e.key).value)) ==> r == c
  {
    var s := SettingOf(e.key);
    if s.None? || !NullOrBlank(Slot(c, s.value)) then c
    else
      match s.value
      case Token => c.(token := Some(e.value))
      case ModelId => c.(modelId := Some(e.value))
      case ModelsUrl => c.(modelsUrl := Some(e.value))
  }

  /** Every line of the file, parsed. */
  function ParseLines(lines: seq<string>): (es: seq<Option<EnvEntry>>)
    ensures |es| == |lines| && forall i :: 0 <= i < |lines| ==> es[i] == ParseEnvLine(lines[i])
  {
    seq(|lines|, i requires 0 <= i < |lines| => ParseEnvLine(lines[i]))
  }

  /** The loop over the parsed lines, in file order; skipped lines change nothing. */
  function ApplyEntries(c: Config, es: seq<Option<EnvEntry>>): Config
    decreases |es|
  {
    if es == [] then c
    else ApplyEntries(if es[0].Some? then Fill(c, es[0].value) else c, es[1..])
  }

  /** The reference meaning: the first non-blank value the entries give for a setting, if any. */
  function FirstNonBlank(es: seq<Option<EnvEntry>>, s: Setting): (r: Option<string>)
    ensures r.Some? ==> !IsBlank(r.value)
    ensures r.Some? ==> exists i :: (0 <= i < |es| && GivesValue(es[i], s, r.value)
      && forall j, v :: 0 <= j < i && GivesValue(es[j], s, v) ==> IsBlank(v))
    ensures r.None? ==> forall i, v :: 0 <= i < |es| && GivesValue(es[i], s, v) ==> IsBlank(v)
  {
    if es == [] then None
    else if es[0].Some? && SettingOf(es[0].value.key) == Some(s) && !IsBlank(es[0].value.value) then
      assert GivesValue(es[0], s, es[0].value.value);
      Some(es[0].value.value)
    else
      var r := FirstNonBlank(es[1..], s);
      assert forall v :: GivesValue(es[0], s, v) ==> IsBlank(v);
      assert forall j :: 1 <= j < |es| ==> es[j] == es[1..][j - 1];
      if r.Some? then FirstAfterHead(es, s, r.value); r
      else r
  }

  /** A first non-blank value of the tail is the first of the whole when the head gives none. */
  lemma FirstAfterHead(es: seq<Option<EnvEntry>>, s: Setting, value: string)
    requires es != [] && forall v :: GivesValue(es[0], s, v) ==> IsBlank(v)
    requires exists i :: (0 <= i < |es[1..]| && GivesValue(es[1..][i], s, value)
      && forall j, v :: 0 <= j < i && GivesValue(es[1..][j], s, v) ==> IsBlank(v))
    ensures exists i :: (0 <= i < |es| && GivesValue(es[i], s, value)
      && forall j, v :: 0 <= j < i && GivesValue(es[j], s, v) ==> IsBlank(v))
  {
    var i :| (0 <= i < |es[1..]| && GivesValue(es[1..][i], s, value)
      && forall j, v :: 0 <= j < i && GivesValue(es[1..][j], s, v) ==> IsBlank(v));
    assert es[i + 1] == es[1..][i];
    forall j, v | 0 <= j < i + 1 && GivesValue(es[j], s, v) ensures IsBlank(v) {
      if j > 0 {
        assert es[j] == es[1..][j - 1];
      }
    }
  }

  /** The entry is a line `KEY=value` for the setting. */
  predicate GivesValue(e: Option<EnvEntry>, s: Setting, value: string) {
    e.Some? && SettingOf(e.value.key) == Some(s) && e.value.value == value
  }

  /**
   * A setting already given keeps its value; otherwise the first non-blank
   * value in the file wins, and a setting with none stays null or blank.
   */
  lemma {:induction false} FirstNonBlankWins(c: Config, es: seq<Option<EnvEntry>>, key: Setting)
    ensures !NullOrBlank(Slot(c, key)) ==> Slot(ApplyEntries(c, es), key) == Slot(c, key)
    ensures NullOrBlank(Slot(c, key)) && FirstNonBlank(es, key).Some? ==>
      Slot(ApplyEntries(c, es), key) == FirstNonBlank(es, key)
    ensures NullOrBlank(Slot(c, key)) && FirstNonBlank(es, key).None? ==>
      NullOrBlank(Slot(ApplyEntries(c, es), key))
    decreases |es|
  {
    if es != [] {
      var c' := if es[0].Some? then Fill(c, es[0].value) else c;
      FirstNonBlankWins(c', es[1..], key);
    }
  }

  /** The file is consulted only when the token or the model id is null or blank. */
  predicate NeedsEnvFile(props: Config) {
    NullOrBlank(props.token) || NullOrBlank(props.modelId)
  }

  /** The `.env` file is read only when the token or the model id is missing; `None` is a missing or unreadable file. */
  function LoadConfig(props: Config, envFile: Option<seq<string>>): (c: Config)
    ensures !NeedsEnvFile(props) || envFile.None? ==> c == props
    ensures !NullOrBlank(props.token) ==> c.token == props.token
    ensures !NullOrBlank(props.modelId) ==> c.modelId == props.modelId
    ensures !NullOrBlank(props.modelsUrl) ==> c.modelsUrl == props.modelsUrl
  {
    if NeedsEnvFile(props) && envFile.Some? then
      var es := ParseLines(envFile.value);
      FirstNonBlankWins(props, es, Token);
      FirstNonBlankWins(props, es, ModelId);
      FirstNonBlankWins(props, es, ModelsUrl);
      ApplyEntries(props, es)
    else props
  }

  /** A missing token is taken from the first non-blank `GITHUB_TOKEN` line of the file. */
  lemma TokenFromFile(props: Config, lines: seq<string>)
    requires NullOrBlank(props.token) && FirstNonBlank(ParseLines(lines), Token).Some?
    ensures LoadConfig(props, Some(lines)).token == FirstNonBlank(ParseLines(lines), Token)
  {
    FirstNonBlankWins(props, ParseLines(lines), Token);
  }

  /** Every line parsed as written, each on its own. */
  function LineResults(lines: seq<string>): (rs: seq<Result<Option<EnvEntry>>>)
    ensures |rs| == |lines| && forall i :: 0 <= i < |lines| ==> rs[i] == ParseEnvLineAsWritten(lines[i])
  {
    seq(|lines|, i requires 0 <= i < |lines| => ParseEnvLineAsWritten(lines[i]))
  }

  /** The loop over the lines as written: the first line that throws ends it. */
  function Collect(rs: seq<Result<Option<EnvEntry>>>): (r: Result<seq<Option<EnvEntry>>>)
    ensures r.Ok? <==> forall i :: 0 <= i < |rs| ==> rs[i].Ok?
    ensures r.Ok? ==> |r.value| == |rs| && forall i :: 0 <= i < |rs| ==> r.value[i] == rs[i].value
  {
    if rs == [] then Ok([])
    else if rs[0].Err? then Err(rs[0].error)
    else
      var rest := Collect(rs[1..]);
      assert forall i :: 1 <= i < |rs| ==> rs[i] == rs[1..][i - 1];
      if rest.Err? then rest else Ok([rs[0].value] + rest.value)
  }

  /** Every line parsed as written: the first lone-quote value throws. */
  function ParseLinesAsWritten(lines: seq<string>): (r: Result<seq<Option<EnvEntry>>>)
    ensures r.Ok? ==> r.value == ParseLines(lines)
    ensures r.Err? <==> exists i :: 0 <= i < |lines| && ParseEnvLineAsWritten(lines[i]).Err?
  {
    var rs := LineResults(lines);
    var r := Collect(rs);
    assert r.Ok? ==> forall i :: 0 <= i < |lines| ==> r.value[i] == ParseLines(lines)[i];
    r
  }

  /** The constructor as written: it fails when the file is consulted and holds a lone-quote value. */
  function LoadConfigAsWritten(props: Config, envFile: Option<seq<string>>): (r: Result<Config>)
    ensures r.Ok? ==> r.value == LoadConfig(props, envFile)
    ensures r.Err? <==> NeedsEnvFile(props) && envFile.Some?
                        && exists i :: 0 <= i < |envFile.value| && ParseEnvLineAsWritten(envFile.value[i]).Err?
  {
    if NeedsEnvFile(props) && envFile.Some? then
      var es := ParseLinesAsWritten(envFile.value);
      if es.Err? then Err(es.error) else Ok(LoadConfig(props, envFile))
    else Ok(props)
  }

  /** With no token configured, a `.env` line `GITHUB_TOKEN="` stops the application from starting. */
  lemma LoneQuoteStopsStartup(url: string)
    ensures LoadConfigAsWritten(Config(Some(""), Some(url), Some("")), Some(["GITHUB_TOKEN" + "=" + "\""])).Err?
  {
    var k := "GITHUB_TOKEN";
    assert PlainKey(k);
    LoneQuoteThrows(k);
    var lines := [k + "=" + "\""];
    assert ParseEnvLineAsWritten(lines[0]).Err?;
  }

  /** A JSON tree as Jackson reads it. */
  datatype Json =
    | JNull
    | JBool(b: bool)
    | JNum(n: int)
    | JStr(s: string)
    | JArr(items: seq<Json>)
    | JObj(fields: map<string, Json>)

  /** `node.has(name) ? node.get(name) : null`; only objects have fields. */
  function Field(j: Json, name: string): (r: Option<Json>)
    ensures r.Some? <==> j.JObj? && name in j.fields
  {
    if j.JObj? && name in j.fields then Some(j.fields[name]) else None
  }

  /** The first element of a non-empty array field. */
  function FirstOf(j: Json, name: string): (r: Option<Json>)
    ensures r.Some? ==> Field(j, name).Some? && Field(j, name).value.JArr? && Field(j, name).value.items != []
  {
    var f := Field(j, name);
    if f.Some? && f.value.JArr? && f.value.items != [] then Some(f.value.items[0]) else None
  }

  /** The content node: `choices[0].message.content`, else `choices[0].text`, else `data[0].content`. */
  function ExtractContent(root: Json): (r: Option<Json>)
    ensures r.None? ==> FirstOf(root, "data").None? || Field(FirstOf(root, "data").value, "content").None?
  {
    var c0 := FirstOf(root, "choices");
    var fromChoices :=
      if c0.None? then None
      else
        var m := Field(c0.value, "message");
        if m.Some? && Field(m.value, "content").Some? then Field(m.value, "content")
        else Field(c0.value, "text");
    if fromChoices.Some? then fromChoices
    else
      var d0 := FirstOf(root, "data");
      if d0.Some? then Field(d0.value, "content") else None
  }

  /** The chat-completions shape `{"choices":[{"message":{"content": s}}]}`. */
  function ChatResponse(s: string): Json {
    JObj(map["choices" := JArr([JObj(map["message" := JObj(map["content" := JStr(s)])])])])
  }

  /** The completions shape `{"choices":[{"text": s}]}`. */
  function TextResponse(s: string): Json {
    JObj(map["choices" := JArr([JObj(map["text" := JStr(s)])])])
  }

  /** The shape `{"data":[{"content": s}]}`. */
  function DataResponse(s: string): Json {
    JObj(map["data" := JArr([JObj(map["content" := JStr(s)])])])
  }

  /** Each of the three documented shapes yields its text. */
  lemma ShapesExtract(s: string)
    ensures ExtractContent(ChatResponse(s)) == Some(JStr(s))
    ensures ExtractContent(TextResponse(s)) == Some(JStr(s))
    ensures ExtractContent(DataResponse(s)) == Some(JStr(s))
  {
  }

  /** A usable `choices` entry wins over `data`. */
  lemma ChoicesBeforeData(s: string, t: string)
    ensures ExtractContent(JObj(map["choices" := JArr([JObj(map["text" := JStr(s)])]),
                                    "data" := JArr([JObj(map["content" := JStr(t)])])])) == Some(JStr(s))
  {
  }

  /** The chat request the client sends. */
  datatype Request = Request(
    uri: string,
    authorization: string,
    model: string,
    system: string,
    user: string,
    maxTokens: int)

  /** What came back: a status and a body, which may not parse as JSON. */
  datatype HttpResponse = HttpResponse(status: int, body: Option<Json>)

  const SystemPrompt := "Eres un analista que escribe resúmenes breves y claros para emails corporativos en español. Sé conciso (<=120 palabras)."

  /** The user message: the period (or "N/A") and the figures, a missing sku or branch shown as "null". */
  function UserPrompt(agg: Aggregates, from: Option<LocalDate>, to: Option<LocalDate>, dateText: LocalDate -> string): (p: string)
    ensures Contains(p, LongText(agg.totalUnits))
  {
    var period := (if from.Some? then dateText(from.value) else "N/A") + " a " + (if to.Some? then dateText(to.value) else "N/A");
    var pre := "Periodo: " + period + ". Con estos datos: totalUnits=";
    var post := ", totalRevenue=" + Money2(agg.totalRevenueCents)
      + ", topSku=" + NullText(agg.topSku) + ", topBranch=" + NullText(agg.topBranch)
      + ". Devuelve un resumen ≤120 palabras para enviar por email.";
    ContainsInfix(pre, LongText(agg.totalUnits), post);
    pre + LongText(agg.totalUnits) + post
  }

  /** The request for a configured client. */
  function BuildRequest(cfg: Config, agg: Aggregates, from: Option<LocalDate>, to: Option<LocalDate>, dateText: LocalDate -> string): (q: Request)
    requires cfg.token.Some? && cfg.modelId.Some? && cfg.modelsUrl.Some?
    ensures q.authorization == "Bearer " + cfg.token.value && q.model == cfg.modelId.value && q.uri == cfg.modelsUrl.value
    ensures q.maxTokens == 200 && Contains(q.user, LongText(agg.totalUnits))
  {
    Request(cfg.modelsUrl.value, "Bearer " + cfg.token.value, cfg.modelId.value, SystemPrompt,
            UserPrompt(agg, from, to, dateText), 200)
  }

  /** A 2xx status. */
  predicate Success(status: int) {
    200 <= status < 300
  }

  /**
   * generateSummary: nothing without a token and a model id; otherwise the
   * trimmed content of a successful response, and nothing for a failure, a
   * non-2xx status, an unreadable body or a body without content. `send`
   * answers `None` when building or sending the request throws; `render` is
   * Jackson's `toString()` of a non-text node.
   */
  function GenerateSummary(cfg: Config, agg: Aggregates, from: Option<LocalDate>, to: Option<LocalDate>,
                           dateText: LocalDate -> string, send: Request -> Option<HttpResponse>,
                           render: Json -> string): (r: Option<string>)
    ensures NullOrBlank(cfg.token) || NullOrBlank(cfg.modelId) || cfg.modelsUrl.None? ==> r.None?
    ensures r.Some? ==>
      var resp := send(BuildRequest(cfg, agg, from, to, dateText));
      resp.Some? && Success(resp.value.status) && resp.value.body.Some?
      && ExtractContent(resp.value.body.value).Some?
    ensures !NullOrBlank(cfg.token) && !NullOrBlank(cfg.modelId) && cfg.modelsUrl.Some? ==>
      var resp := send(BuildRequest(cfg, agg, from, to, dateText));
      (resp.Some? && Success(resp.value.status) && resp.value.body.Some?
       && ExtractContent(resp.value.body.value).Some?) ==> r.Some?
    ensures r.Some? ==>
      var c := ExtractContent(send(BuildRequest(cfg, agg, from, to, dateText)).value.body.value).value;
      r.value == Trim(if c.JStr? then c.s else render(c))
    ensures r.Some? ==> Trim(r.value) == r.value
  {
    if NullOrBlank(cfg.token) || NullOrBlank(cfg.modelId) || cfg.modelsUrl.None? then None
    else
      var resp := send(BuildRequest(cfg, agg, from, to, dateText));
      if resp.None? || !Success(resp.value.status) || resp.value.body.None? then None
      else
        var content := ExtractContent(resp.value.body.value);
        if content.None? then None
        else
          var text := if content.value.JStr? then content.value.s else render(content.value);
          TrimIdempotent(text);
          Some(Trim(text))
  }

  /** A configured client answered with a chat completion returns its text, trimmed. */
  lemma ChatCompletionSummary(cfg: Config, agg: Aggregates, from: Option<LocalDate>, to: Option<LocalDate>,
                              dateText: LocalDate -> string, send: Request -> Option<HttpResponse>,
                              render: Json -> string, status: int, s: string)
    requires !NullOrBlank(cfg.token) && !NullOrBlank(cfg.modelId) && cfg.modelsUrl.Some?
    requires send(BuildRequest(cfg, agg, from, to, dateText)) == Some(HttpResponse(status, Some(ChatResponse(s))))
    ensures Success(status) ==> GenerateSummary(cfg, agg, from, to, dateText, send, render) == Some(Trim(s))
    ensures !Success(status) ==> GenerateSummary(cfg, agg, from, to, dateText, send, render).None?
  {
    ShapesExtract(s);
  }
}
