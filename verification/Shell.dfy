/**
 The cURL command that the console offers to copy, and the shell that reads it: quoting and word
 splitting as sections 2.2.1 to 2.2.3 and 2.3 of the POSIX Shell Command Language define them.
 */
module Shell {
  import opened Tables

  // ----- the shell

  datatype Mode = Plain | Single | Double

  /** Finished words, and the word being read; a quoted empty string starts a word too. */
  datatype State = State(mode: Mode, words: seq<string>, word: Option<string>)

  /** One step of the shell consumes some characters, or meets what this fragment does not cover. */
  datatype Move = Stop | Go(length: nat, next: State)

  type Environment = map<string, string>

  const START := State(Plain, [], None)

  function Add(st: State, text: string): State {
    st.(word := Some((if st.word.Some? then st.word.value else "") + text))
  }

  function End(st: State): State {
    if st.word.Some? then State(st.mode, st.words + [st.word.value], None) else st
  }

  /** Characters that have, or may have, a meaning of their own outside quotes. */
  predicate Special(c: char) {
    c in "|&;<>()$`*?[#~=%!{}\n"
  }

  predicate NameChar(c: char) {
    'A' <= c <= 'Z' || 'a' <= c <= 'z' || '0' <= c <= '9' || c == '_'
  }

  function NameLength(s: string): (n: nat)
    ensures n <= |s|
  {
    if s == "" || !NameChar(s[0]) then 0 else 1 + NameLength(s[1..])
  }

  function Value(name: string, env: Environment): string {
    if name in env then env[name] else ""
  }

  function PlainMove(s: string, st: State): (m: Move)
    requires s != ""
    ensures m.Go? ==> 0 < m.length <= |s|
  {
    if s[0] == ' ' || s[0] == '\t' then Go(1, End(st))
    else if s[0] == '\'' then Go(1, Add(st.(mode := Single), ""))
    else if s[0] == '\"' then Go(1, Add(st.(mode := Double), ""))
    else if s[0] == '\\' then
      if |s| == 1 then Stop else if s[1] == '\n' then Go(2, st) else Go(2, Add(st, [s[1]]))
    else if Special(s[0]) then Stop
    else Go(1, Add(st, [s[0]]))
  }

  function SingleMove(s: string, st: State): (m: Move)
    requires s != ""
    ensures m.Go? ==> 0 < m.length <= |s|
  {
    if s[0] == '\'' then Go(1, st.(mode := Plain)) else Go(1, Add(st, [s[0]]))
  }

  function DoubleMove(s: string, env: Environment, st: State): (m: Move)
    requires s != ""
    ensures m.Go? ==> 0 < m.length <= |s|
  {
    if s[0] == '\"' then Go(1, st.(mode := Plain))
    else if s[0] == '`' then Stop
    else if s[0] == '$' then
      var n := NameLength(s[1..]);
      if n == 0 || '0' <= s[1] <= '9' then Stop else Go(1 + n, Add(st, Value(s[1..1 + n], env)))
    else if s[0] == '\\' && |s| > 1 && s[1] in "$`\"\\" then Go(2, Add(st, [s[1]]))
    else if s[0] == '\\' && |s| > 1 && s[1] == '\n' then Go(2, st)
    else Go(1, Add(st, [s[0]]))
  }

  function Turn(s: string, env: Environment, st: State): (m: Move)
    requires s != ""
    ensures m.Go? ==> 0 < m.length <= |s|
  {
    match st.mode
    case Plain => PlainMove(s, st)
    case Single => SingleMove(s, st)
    case Double => DoubleMove(s, env, st)
  }

  /** The argument vector of a one-command text, or None when it is unfinished or not covered. */
  function Words(s: string, env: Environment, st: State): Option<seq<string>>
    decreases |s|
  {
    if s == "" then if st.mode == Plain then Some(End(st).words) else None
    else
      var m := Turn(s, env, st);
      if m.Stop? then None else Words(s[m.length..], env, m.next)
  }

  // ----- the printer

  datatype Method = GET | POST

  /** The body is its JSON text. */
  datatype Request = Request(verb: Method, path: string, body: Option<string>)

  function Verb(m: Method): string {
    match m case GET => "GET" case POST => "POST"
  }

  /** Every single quote closes the string, is written inside double quotes, and reopens it. */
  function Escaped(value: string): string {
    if value == "" then ""
    else (if value[0] == '\'' then "'\"'\"'" else [value[0]]) + Escaped(value[1..])
  }

  function SingleQuote(value: string): string {
    "'" + Escaped(value) + "'"
  }

  predicate NeedsToken(path: string) {
    "/v1/" <= path
  }

  const BREAK := " \\\n"
  const BEARER := "Authorization: Bearer "
  const TOKEN := "ACCESS_TOKEN"
  const JSON := "content-type: application/json"
  const AUTHORIZATION := "  -H " + ("\"" + BEARER + ("$" + TOKEN + "\""))
  const CONTENT_TYPE := "  -H " + ("'" + JSON + "'")

  function Target(r: Request, origin: string): string {
    "curl -X " + Verb(r.verb) + " " + SingleQuote(origin + r.path)
  }

  function Joined(lines: seq<string>): string {
    if lines == [] then ""
    else if |lines| == 1 then lines[0]
    else Joined(lines[..|lines| - 1]) + BREAK + lines[|lines| - 1]
  }

  // ----- what the command has to mean, from the request alone

  /** The path begins with the four characters of the API's prefix. */
  predicate UnderApi(path: string) {
    |path| >= 4 && path[0] == '/' && path[1] == 'v' && path[2] == '1' && path[3] == '/'
  }

  function HeadArguments(r: Request, origin: string, env: Environment): seq<string> {
    ["curl", "-X", if r.verb.POST? then "POST" else "GET", origin + r.path]
    + if UnderApi(r.path) then
        ["-H", "Authorization: Bearer " + if "ACCESS_TOKEN" in env then env["ACCESS_TOKEN"] else ""]
      else []
  }

  /** The argument vector of the request that was sent. */
  function Arguments(r: Request, origin: string, env: Environment): seq<string> {
    HeadArguments(r, origin, env)
    + if r.body.Some? then ["-H", "content-type: application/json", "--data", r.body.value] else []
  }

  /** An option and its value, after the method and the URL. */
  ghost predicate HasOption(words: seq<string>, option: string, value: string) {
    exists i: nat :: OptionAt(words, i, option, value)
  }

  predicate OptionAt(words: seq<string>, i: nat, option: string, value: string) {
    4 <= i && i % 2 == 0 && i + 1 < |words| && words[i] == option && words[i + 1] == value
  }

  /** The options by themselves: which are there, and when. */
  lemma OptionsSent(r: Request, origin: string, env: Environment)
    ensures var words := Arguments(r, origin, env);
            && |words| >= 4 && words[..2] == ["curl", "-X"] && words[3] == origin + r.path
            && (words[2] == "POST" <==> r.verb == POST) && (words[2] == "GET" <==> r.verb == GET)
            && (HasOption(words, "-H",
                          "Authorization: Bearer " + if "ACCESS_TOKEN" in env then env["ACCESS_TOKEN"] else "") <==>
                UnderApi(r.path))
            && (HasOption(words, "-H", "content-type: application/json") <==> r.body.Some?)
            && (forall text: string :: HasOption(words, "--data", text) <==> r.body == Some(text))
  {
    var words := Arguments(r, origin, env);
    var bearer := "Authorization: Bearer " + if "ACCESS_TOKEN" in env then env["ACCESS_TOKEN"] else "";
    assert bearer[0] == 'A' && "content-type: application/json"[0] == 'c';
    assert "POST"[0] == 'P' && "GET"[0] == 'G' && "-H"[1] == 'H' && "--data"[1] == '-';
    if UnderApi(r.path) {
      assert OptionAt(words, 4, "-H", bearer);
    }
    if r.body.Some? {
      var k := if UnderApi(r.path) then 6 else 4;
      assert OptionAt(words, k, "-H", "content-type: application/json");
      assert OptionAt(words, k + 2, "--data", r.body.value);
    }
  }

  lemma PrefixIsApi(path: string)
    ensures NeedsToken(path) <==> UnderApi(path)
  {
    assert "/v1/"[0] == '/' && "/v1/"[1] == 'v' && "/v1/"[2] == '1' && "/v1/"[3] == '/';
    if UnderApi(path) {
      assert path[..4] == "/v1/";
    }
  }

  lemma VerbIsMethod(m: Method)
    ensures Verb(m) == if m.POST? then "POST" else "GET"
  {
  }

  // ----- reading in pieces

  /** Whatever follows it, this text takes the shell from one state to another. */
  ghost predicate Reads(text: string, env: Environment, a: State, b: State) {
    forall rest: string :: Words(text + rest, env, a) == Words(rest, env, b)
  }

  lemma {:induction false} ReadsThen(x: string, y: string, env: Environment, a: State, b: State, c: State)
    requires Reads(x, env, a, b) && Reads(y, env, b, c)
    ensures Reads(x + y, env, a, c)
  {
    forall rest: string ensures Words((x + y) + rest, env, a) == Words(rest, env, c) {
      Regrouped(x, y, rest);
      ReadsBefore(x, env, a, b, y + rest);
      ReadsBefore(y, env, b, c, rest);
    }
  }

  lemma ReadsBefore(text: string, env: Environment, a: State, b: State, rest: string)
    requires Reads(text, env, a, b)
    ensures Words(text + rest, env, a) == Words(rest, env, b)
  {
  }

  lemma Regrouped(x: string, y: string, rest: string)
    ensures (x + y) + rest == x + (y + rest)
  {
  }

  lemma {:induction false} ReadsOne(text: string, env: Environment, a: State, b: State)
    requires text != ""
    requires forall rest: string :: Turn(text + rest, env, a) == Go(|text|, b)
    ensures Reads(text, env, a, b)
  {
    forall rest: string ensures Words(text + rest, env, a) == Words(rest, env, b) {
      assert Turn(text + rest, env, a) == Go(|text|, b);
      assert (text + rest)[|text|..] == rest;
    }
  }

  lemma Grown(st: State, x: string, y: string)
    ensures Add(Add(st, x), y) == Add(st, x + y)
    ensures st.word.Some? ==> Add(st, "") == st
  {
    var word := if st.word.Some? then st.word.value else "";
    assert word + x + y == word + (x + y);
    assert word + "" == word;
  }

  predicate Ordinary(c: char) {
    !Special(c) && c !in " \t'\"\\"
  }

  lemma {:induction false} PlainText(text: string, env: Environment, st: State)
    requires st.mode == Plain && text != "" && forall i: nat :: i < |text| ==> Ordinary(text[i])
    ensures Reads(text, env, st, Add(st, text))
  {
    ReadsOne([text[0]], env, st, Add(st, [text[0]]));
    if |text| == 1 {
      assert text == [text[0]];
    } else {
      var next := Add(st, [text[0]]);
      PlainText(text[1..], env, next);
      assert text == [text[0]] + text[1..];
      Grown(st, [text[0]], text[1..]);
      ReadsThen([text[0]], text[1..], env, st, next, Add(st, text));
    }
  }

  lemma Blank(env: Environment, st: State)
    requires st.mode == Plain
    ensures Reads(" ", env, st, End(st))
  {
    ReadsOne(" ", env, st, End(st));
  }

  lemma {:induction false} BreakReads(env: Environment, st: State)
    requires st.mode == Plain
    ensures Reads(BREAK, env, st, End(st))
  {
    Blank(env, st);
    ReadsOne("\\\n", env, End(st), End(st));
    ReadsThen(" ", "\\\n", env, st, End(st), End(st));
    assert " " + "\\\n" == BREAK;
  }

  lemma OpenReads(quote: string, mode: Mode, env: Environment, st: State)
    requires st.mode == Plain && mode != Plain && quote == if mode == Single then "'" else "\""
    ensures Reads(quote, env, st, Add(st.(mode := mode), ""))
  {
    ReadsOne(quote, env, st, Add(st.(mode := mode), ""));
  }

  lemma CloseReads(quote: string, env: Environment, st: State)
    requires st.mode != Plain && quote == if st.mode == Single then "'" else "\""
    ensures Reads(quote, env, st, st.(mode := Plain))
  {
    ReadsOne(quote, env, st, st.(mode := Plain));
  }

  lemma {:induction false} DoubleQuoteReads(text: string, env: Environment, st: State)
    requires st.mode == Plain && forall i: nat :: i < |text| ==> text[i] !in "\"`$\\"
    ensures Reads("\"" + text + "\"", env, st, Add(st, text))
  {
    var inside := Add(st.(mode := Double), "");
    OpenReads("\"", Double, env, st);
    DoubleText(text, env, inside);
    Grown(st.(mode := Double), "", text);
    assert "" + text == text;
    CloseReads("\"", env, Add(inside, text));
    ReadsThen("\"", text, env, st, inside, Add(inside, text));
    ReadsThen("\"" + text, "\"", env, st, Add(inside, text), Add(st, text));
  }

  /** The five characters printed for a single quote add exactly that quote. */
  lemma {:induction false} EscapedQuoteReads(env: Environment, st: State)
    requires st.mode == Single && st.word.Some?
    ensures Reads("'\"'\"'", env, st, Add(st, "'"))
  {
    var outside := st.(mode := Plain);
    var after := Add(outside, "'");
    CloseReads("'", env, st);
    DoubleQuoteReads("'", env, outside);
    OpenReads("'", Single, env, after);
    Grown(st, "'", "");
    assert "'" + "" == "'";
    ReadsThen("'", "\"" + "'" + "\"", env, st, outside, after);
    ReadsThen("'" + ("\"" + "'" + "\""), "'", env, st, after, Add(st, "'"));
    assert "'" + ("\"" + "'" + "\"") + "'" == "'\"'\"'";
  }

  lemma {:induction false} EscapedReads(value: string, env: Environment, st: State)
    requires st.mode == Single && st.word.Some?
    ensures Reads(Escaped(value), env, st, Add(st, value))
  {
    if value == "" {
      Grown(st, "", "");
      assert forall rest: string :: Escaped(value) + rest == rest;
    } else {
      var first := if value[0] == '\'' then "'\"'\"'" else [value[0]];
      var next := Add(st, [value[0]]);
      if value[0] == '\'' {
        EscapedQuoteReads(env, st);
        assert "'" == [value[0]];
      } else {
        ReadsOne(first, env, st, next);
      }
      EscapedReads(value[1..], env, next);
      Grown(st, [value[0]], value[1..]);
      assert [value[0]] + value[1..] == value;
      ReadsThen(first, Escaped(value[1..]), env, st, next, Add(st, value));
    }
  }

  /** Quoting is exact: wherever it stands, the printed text adds the value to the word and nothing else. */
  lemma {:induction false} SingleQuoteReads(value: string, env: Environment, st: State)
    requires st.mode == Plain
    ensures Reads(SingleQuote(value), env, st, Add(st, value))
  {
    var inside := Add(st.(mode := Single), "");
    OpenReads("'", Single, env, st);
    EscapedReads(value, env, inside);
    Grown(st.(mode := Single), "", value);
    assert "" + value == value;
    CloseReads("'", env, Add(inside, value));
    ReadsThen("'", Escaped(value), env, st, inside, Add(inside, value));
    ReadsThen("'" + Escaped(value), "'", env, st, Add(inside, value), Add(st, value));
  }

  lemma {:induction false} DoubleText(text: string, env: Environment, st: State)
    requires st.mode == Double && st.word.Some? && forall i: nat :: i < |text| ==> text[i] !in "\"`$\\"
    ensures Reads(text, env, st, Add(st, text))
  {
    if text == "" {
      Grown(st, "", "");
      assert forall rest: string :: text + rest == rest;
    } else {
      var next := Add(st, [text[0]]);
      ReadsOne([text[0]], env, st, next);
      DoubleText(text[1..], env, next);
      Grown(st, [text[0]], text[1..]);
      assert [text[0]] + text[1..] == text;
      ReadsThen([text[0]], text[1..], env, st, next, Add(st, text));
    }
  }

  lemma {:induction false} NameEnds(name: string, rest: string)
    requires forall i: nat :: i < |name| ==> NameChar(name[i])
    requires rest != "" && !NameChar(rest[0])
    ensures NameLength(name + rest) == |name|
  {
    if name == "" {
      assert name + rest == rest;
    } else {
      assert (name + rest)[1..] == name[1..] + rest;
      NameEnds(name[1..], rest);
    }
  }

  /** An expansion that the closing quote follows adds the parameter's value, unsplit. */
  lemma {:induction false} ExpansionReads(name: string, env: Environment, st: State)
    requires st.mode == Double && st.word.Some?
    requires name != "" && !('0' <= name[0] <= '9') && forall i: nat :: i < |name| ==> NameChar(name[i])
    ensures Reads("$" + name + "\"", env, st, Add(st.(mode := Plain), Value(name, env)))
  {
    var next := Add(st, Value(name, env));
    forall rest: string
      ensures Words(("$" + name + "\"") + rest, env, st) == Words(rest, env, Add(st.(mode := Plain), Value(name, env)))
    {
      var s := ("$" + name + "\"") + rest;
      assert s[1..] == name + ("\"" + rest);
      NameEnds(name, "\"" + rest);
      assert s[1..1 + |name|] == name && s[1 + |name|..] == "\"" + rest;
      assert Turn(s, env, st) == Go(1 + |name|, next);
      assert ("\"" + rest)[1..] == rest;
    }
  }

  // ----- the lines

  /** Reading a whole text from the start gives these words, the last one still open. */
  ghost predicate Means(text: string, env: Environment, words: seq<string>) {
    words != [] && Reads(text, env, START, State(Plain, words[..|words| - 1], Some(words[|words| - 1])))
  }

  /** Reading this line between two words adds an option and its value. */
  ghost predicate Adds(line: string, env: Environment, option: string, value: string) {
    forall words: seq<string> ::
      Reads(line, env, State(Plain, words, None), State(Plain, words + [option], Some(value)))
  }

  lemma {:induction false} MeansThen(text: string, line: string, env: Environment, words: seq<string>, option: string,
                                     value: string)
    requires Means(text, env, words) && Adds(line, env, option, value)
    ensures Means(text + BREAK + line, env, words + [option, value])
  {
    var before := State(Plain, words[..|words| - 1], Some(words[|words| - 1]));
    var between := State(Plain, words, None);
    assert words[..|words| - 1] + [words[|words| - 1]] == words;
    BreakReads(env, before);
    ReadsThen(text, BREAK, env, START, before, between);
    ReadsThen(text + BREAK, line, env, START, between, State(Plain, words + [option], Some(value)));
    var all := words + [option, value];
    assert all[..|all| - 1] == words + [option] && all[|all| - 1] == value;
  }

  lemma {:induction false} MeaningIsWords(text: string, env: Environment, words: seq<string>)
    requires Means(text, env, words)
    ensures Words(text, env, START) == Some(words)
  {
    assert text + "" == text;
    assert Words(text + "", env, START) == Words("", env, State(Plain, words[..|words| - 1], Some(words[|words| - 1])));
    assert words[..|words| - 1] + [words[|words| - 1]] == words;
  }

  /** Two blanks, an option and a blank, then the text of its value. */
  lemma {:induction false} OptionReads(option: string, text: string, env: Environment, value: string)
    requires option != "" && forall i: nat :: i < |option| ==> Ordinary(option[i])
    requires forall words: seq<string> :: Reads(text, env, State(Plain, words, None), State(Plain, words, Some(value)))
    ensures Adds("  " + option + " " + text, env, option, value)
  {
    forall words: seq<string>
      ensures Reads("  " + option + " " + text, env, State(Plain, words, None),
                    State(Plain, words + [option], Some(value)))
    {
      var st, named, next :=
          State(Plain, words, None), State(Plain, words, Some(option)), State(Plain, words + [option], None);
      Blank(env, st);
      ReadsThen(" ", " ", env, st, st, st);
      assert " " + " " == "  ";
      PlainText(option, env, st);
      assert "" + option == option;
      ReadsThen("  ", option, env, st, st, named);
      Blank(env, named);
      ReadsThen("  " + option, " ", env, st, named, next);
      assert Reads(text, env, next, State(Plain, words + [option], Some(value)));
      ReadsThen("  " + option + " ", text, env, st, next, State(Plain, words + [option], Some(value)));
    }
  }

  lemma {:induction false} QuotedOption(option: string, value: string, env: Environment)
    requires option != "" && forall i: nat :: i < |option| ==> Ordinary(option[i])
    ensures Adds("  " + option + " " + SingleQuote(value), env, option, value)
  {
    forall words: seq<string>
      ensures Reads(SingleQuote(value), env, State(Plain, words, None), State(Plain, words, Some(value)))
    {
      SingleQuoteReads(value, env, State(Plain, words, None));
      assert "" + value == value;
    }
    OptionReads(option, SingleQuote(value), env, value);
  }

  lemma HeaderPrefix()
    ensures "  " + "-H" + " " == "  -H "
  {
  }

  lemma {:induction false} BearerReads(bearer: string, name: string, env: Environment, words: seq<string>)
    requires forall i: nat :: i < |bearer| ==> bearer[i] !in "\"`$\\"
    requires name != "" && !('0' <= name[0] <= '9') && forall i: nat :: i < |name| ==> NameChar(name[i])
    ensures Reads("\"" + bearer + ("$" + name + "\""), env, State(Plain, words, None),
                  State(Plain, words, Some(bearer + Value(name, env))))
  {
    var st, inside, said :=
        State(Plain, words, None), State(Double, words, Some("")), State(Double, words, Some(bearer));
    OpenReads("\"", Double, env, st);
    assert Add(st.(mode := Double), "") == inside by { assert "" + "" == ""; }
    DoubleText(bearer, env, inside);
    assert "" + bearer == bearer;
    ReadsThen("\"", bearer, env, st, inside, said);
    ExpansionReads(name, env, said);
    ReadsThen("\"" + bearer, "$" + name + "\"", env, st, said, State(Plain, words, Some(bearer + Value(name, env))));
  }

  lemma {:induction false} AuthorizationReads(env: Environment)
    ensures Adds(AUTHORIZATION, env, "-H", BEARER + Value(TOKEN, env))
  {
    forall words: seq<string>
      ensures Reads("\"" + BEARER + ("$" + TOKEN + "\""), env, State(Plain, words, None),
                    State(Plain, words, Some(BEARER + Value(TOKEN, env))))
    {
      BearerReads(BEARER, TOKEN, env, words);
    }
    OptionReads("-H", "\"" + BEARER + ("$" + TOKEN + "\""), env, BEARER + Value(TOKEN, env));
    HeaderPrefix();
  }

  lemma {:induction false} HeaderReads(header: string, env: Environment)
    requires forall i: nat :: i < |header| ==> header[i] != '\''
    ensures Adds("  " + "-H" + " " + ("'" + header + "'"), env, "-H", header)
  {
    QuotedOption("-H", header, env);
    NothingEscaped(header);
  }

  lemma {:induction false} ContentTypeReads(env: Environment)
    ensures Adds(CONTENT_TYPE, env, "-H", JSON)
  {
    HeaderReads(JSON, env);
    HeaderPrefix();
  }

  lemma {:induction false} NothingEscaped(value: string)
    requires forall i: nat :: i < |value| ==> value[i] != '\''
    ensures Escaped(value) == value
  {
    if value != "" {
      NothingEscaped(value[1..]);
    }
  }

  lemma {:induction false} CurlReads(verb: string, env: Environment)
    requires verb != "" && forall i: nat :: i < |verb| ==> Ordinary(verb[i])
    ensures Reads("curl -X " + verb + " ", env, START, State(Plain, ["curl", "-X", verb], None))
  {
    var a, b, c :=
        State(Plain, ["curl"], None), State(Plain, ["curl", "-X"], None), State(Plain, ["curl", "-X", verb], None);
    WordReads("curl", env, []);
    WordReads("-X", env, ["curl"]);
    WordReads(verb, env, ["curl", "-X"]);
    assert [] + ["curl"] == ["curl"] && ["curl"] + ["-X"] == ["curl", "-X"]
           && ["curl", "-X"] + [verb] == ["curl", "-X", verb];
    ReadsThen("curl" + " ", "-X" + " ", env, START, a, b);
    ReadsThen("curl" + " " + ("-X" + " "), verb + " ", env, START, b, c);
    assert "curl" + " " + ("-X" + " ") == "curl -X ";
    assert "curl -X " + (verb + " ") == "curl -X " + verb + " ";
  }

  lemma {:induction false} TargetMeans(r: Request, origin: string, env: Environment)
    ensures Means(Target(r, origin), env, ["curl", "-X", Verb(r.verb), origin + r.path])
  {
    var url := origin + r.path;
    var words := ["curl", "-X", Verb(r.verb), url];
    var c := State(Plain, words[..3], None);
    assert words[..3] == ["curl", "-X", Verb(r.verb)];
    CurlReads(Verb(r.verb), env);
    SingleQuoteReads(url, env, c);
    assert "" + url == url;
    ReadsThen("curl -X " + Verb(r.verb) + " ", SingleQuote(url), env, START, c, Add(c, url));
  }

  lemma {:induction false} WordReads(text: string, env: Environment, words: seq<string>)
    requires text != "" && forall i: nat :: i < |text| ==> Ordinary(text[i])
    ensures Reads(text + " ", env, State(Plain, words, None), State(Plain, words + [text], None))
  {
    var st, named := State(Plain, words, None), State(Plain, words, Some(text));
    PlainText(text, env, st);
    assert "" + text == text;
    Blank(env, named);
    ReadsThen(text, " ", env, st, named, State(Plain, words + [text], None));
  }

  // ----- main result

  function HeadLines(r: Request, origin: string): (lines: seq<string>)
    ensures lines != []
  {
    [Target(r, origin)] + if NeedsToken(r.path) then [AUTHORIZATION] else []
  }

  function Lines(r: Request, origin: string): (lines: seq<string>)
    ensures lines != []
  {
    HeadLines(r, origin)
    + if r.body.Some? then [CONTENT_TYPE, "  --data " + SingleQuote(r.body.value)] else []
  }

  lemma JoinedMore(lines: seq<string>, line: string)
    requires lines != []
    ensures Joined(lines + [line]) == Joined(lines) + BREAK + line
  {
    assert (lines + [line])[..|lines|] == lines;
  }

  lemma {:induction false} LineMeans(lines: seq<string>, line: string, words: seq<string>, option: string,
                                     value: string, env: Environment)
    requires lines != [] && Means(Joined(lines), env, words) && Adds(line, env, option, value)
    ensures Means(Joined(lines + [line]), env, words + [option, value])
  {
    MeansThen(Joined(lines), line, env, words, option, value);
    JoinedMore(lines, line);
  }

  lemma {:induction false} DataReads(json: string, env: Environment)
    ensures Adds("  --data " + SingleQuote(json), env, "--data", json)
  {
    QuotedOption("--data", json, env);
    assert "  " + "--data" + " " == "  --data ";
  }

  lemma {:induction false} BodyMeans(lines: seq<string>, words: seq<string>, json: string, env: Environment)
    requires lines != [] && Means(Joined(lines), env, words)
    ensures Means(Joined(lines + [CONTENT_TYPE] + ["  --data " + SingleQuote(json)]), env,
                  words + ["-H", JSON] + ["--data", json])
  {
    ContentTypeReads(env);
    LineMeans(lines, CONTENT_TYPE, words, "-H", JSON, env);
    DataReads(json, env);
    LineMeans(lines + [CONTENT_TYPE], "  --data " + SingleQuote(json), words + ["-H", JSON], "--data", json, env);
  }

  lemma {:induction false} HeadMeans(r: Request, origin: string, env: Environment)
    ensures Means(Joined(HeadLines(r, origin)), env, HeadArguments(r, origin, env))
  {
    TargetMeans(r, origin, env);
    VerbIsMethod(r.verb);
    PrefixIsApi(r.path);
    var lines, words := [Target(r, origin)], ["curl", "-X", Verb(r.verb), origin + r.path];
    if NeedsToken(r.path) {
      AuthorizationReads(env);
      LineMeans(lines, AUTHORIZATION, words, "-H", BEARER + Value(TOKEN, env), env);
    } else {
      assert lines + [] == lines && words + [] == words;
    }
  }

  /**
   What is copied is what was sent: the shell gives curl exactly the method, the URL, the headers and
   the JSON body of the request, whatever characters they hold and whatever the token is.
   */
  lemma {:induction false} CopiedMeansSent(r: Request, origin: string, env: Environment)
    ensures Words(Joined(Lines(r, origin)), env, START) == Some(Arguments(r, origin, env))
  {
    var lines, words := HeadLines(r, origin), HeadArguments(r, origin, env);
    HeadMeans(r, origin, env);
    if r.body.Some? {
      BodyMeans(lines, words, r.body.value, env);
      assert lines + [CONTENT_TYPE] + ["  --data " + SingleQuote(r.body.value)] == Lines(r, origin);
      assert words + ["-H", JSON] + ["--data", r.body.value] == Arguments(r, origin, env);
    } else {
      assert lines == Lines(r, origin) && words == Arguments(r, origin, env);
    }
    MeaningIsWords(Joined(Lines(r, origin)), env, Arguments(r, origin, env));
  }

  /** requestToCurl: the lines are pushed one by one and joined. */
  method RequestToCurl(r: Request, origin: string) returns (command: string)
    ensures command == Joined(Lines(r, origin))
    ensures forall env: Environment :: Words(command, env, START) == Some(Arguments(r, origin, env))
  {
    var lines := [Target(r, origin)];
    if NeedsToken(r.path) {
      lines := lines + [AUTHORIZATION];
    }
    if r.body.Some? {
      lines := lines + [CONTENT_TYPE];
      lines := lines + ["  --data " + SingleQuote(r.body.value)];
    }
    assert lines == Lines(r, origin);
    command := Joined(lines);
    forall env: Environment ensures Words(command, env, START) == Some(Arguments(r, origin, env)) {
      CopiedMeansSent(r, origin, env);
    }
  }
}
