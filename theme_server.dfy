/** The theme server: its three static fields (the current theme, the
    exhibits read at start and the posted quizzes), its HTTP handlers and
    its start-up. The exchange is reduced to the request method, the body
    or query, and the reply; the AI service's answer and the files are
    parameters. */
module ThemeServer {
  import opened Wrappers
  import opened JavaText
  import opened ThemeText
  import HttpQuery

  /** What a handler does with the exchange: a response with a status and
      a body, or an exception that leaves the exchange unanswered. */
  datatype Reply = Respond(status: int, body: string) | Dropped

  /** The request method, as far as the handlers tell methods apart. */
  datatype Verb = Get | Post | OtherVerb

  const NotAllowed: Reply := Respond(405, "Method Not Allowed")
  const AiError: Reply := Respond(500, "AI Error")

  /** The key `main` keeps after class initialisation, or None when the
      server does not start: the key file's lone-quote key throws while the
      class initialises, and a key shorter than five characters throws at
      the `substring(0, 5)` of the start-up message. */
  function StartKey(env: Option<seq<string>>): Option<Option<string>> {
    var key := if env.None? then NoKey else KeyOf(env.value);
    match key
    case KeyFails => None
    case NoKey => Some(None)
    case Key(k) => if |k| < 5 then None else Some(Some(k))
  }

  /** The exhibits `loadJsonData` adds for the data file's text `data`
      (None when the file is missing or cannot be read). */
  function Loaded(data: Option<string>, field: (string, string) -> Option<string>): seq<Exhibit> {
    if data.None? then [] else ExhibitsOf(ObjectBodies(data.value), field)
  }

  /** The era the search handler filters by: the value after `era=`, or
      the empty text when the query has none, URL-decoded by `decode`;
      None where splitting or decoding throws. */
  function EraOf(query: Option<string>, decode: string -> Option<string>): Option<string> {
    if query.Some? && Contains(query.value, "era=") then
      match HttpQuery.ValueAfter(query.value, "era=")
      case None => None
      case Some(raw) => decode(raw)
    else decode("")
  }

  /** The prompt of the AI request, `String.format` of the theme and the
      tool name. */
  function Prompt(theme: string, toolName: string): string {
    "テーマ:" + theme + ",題材:" + toolName + Instruction
  }

  /** The fixed end of the prompt. */
  const Instruction := ",ターゲット:一般観光客。クイズを1問作成しJSON(question,choices,answer,explanation)のみ返してください。"

  /** The body of the AI request: the prompt, escaped, as the user message. */
  function RequestBody(prompt: string): string {
    RequestHead + EscapeJson(prompt) + "\"}]}"
  }

  /** The model, the system message and the start of the user message. */
  const RequestHead := "{\"model\":\"gpt-3.5-turbo\",\"messages\":[{\"role\":\"system\",\"content\":\"Output JSON only.\"},"
    + "{\"role\":\"user\",\"content\":\""

  /** The text of `/api/quiz/list`: the posted quizzes joined by commas in
      brackets. */
  function QuizList(quizzes: seq<string>): string {
    "[" + JoinWith(",", quizzes) + "]"
  }

  class ThemeController {
    var currentTheme: string
    var exhibits: seq<Exhibit>
    var postedQuizzes: seq<string>
    const apiKey: Option<string>

    /** The theme is never empty and every exhibit has a name. */
    predicate Valid()
      reads this
    {
      currentTheme != "" && forall e :: e in exhibits ==> e.name != ""
    }

    constructor (key: Option<string>)
      ensures Valid()
      ensures currentTheme == Unset && exhibits == [] && postedQuizzes == [] && apiKey == key
    {
      currentTheme := Unset;
      exhibits := [];
      postedQuizzes := [];
      apiKey := key;
    }

    /** `loadJsonData`: one exhibit for each match of the object pattern
        whose name is present and not empty, in the order of the file. */
    method LoadJsonData(data: Option<string>, field: (string, string) -> Option<string>)
      requires Valid()
      modifies this
      ensures Valid()
      ensures exhibits == old(exhibits) + Loaded(data, field)
      ensures currentTheme == old(currentTheme) && postedQuizzes == old(postedQuizzes)
    {
      if data.None? {
        return;
      }
      var bodies := ObjectBodies(data.value);
      var i := 0;
      while i < |bodies|
        invariant 0 <= i <= |bodies|
        invariant Valid()
        invariant exhibits == old(exhibits) + ExhibitsOf(bodies[..i], field)
        invariant currentTheme == old(currentTheme) && postedQuizzes == old(postedQuizzes)
      {
        assert bodies[..i + 1][..i] == bodies[..i];
        var e := ExhibitOf(bodies[i], field);
        if e.Some? {
          exhibits := exhibits + [e.value];
        }
        i := i + 1;
      }
      assert bodies[..i] == bodies;
    }

    /** `/api/theme/current`. */
    method CurrentTheme(verb: Verb) returns (r: Reply)
      ensures r == if verb == Get then Respond(200, currentTheme) else NotAllowed
    {
      if verb == Get {
        return Respond(200, currentTheme);
      }
      return NotAllowed;
    }

    /** `/api/theme/save`: a non-empty body becomes the theme. */
    method SaveTheme(verb: Verb, body: string) returns (r: Reply)
      requires Valid()
      modifies this
      ensures Valid()
      ensures verb == Post && body != "" ==> currentTheme == body && r == Respond(200, "OK")
      ensures verb == Post && body == "" ==> currentTheme == old(currentTheme) && r == Respond(400, "Bad Request")
      ensures verb != Post ==> currentTheme == old(currentTheme) && r == NotAllowed
      ensures exhibits == old(exhibits) && postedQuizzes == old(postedQuizzes)
    {
      if verb == Post {
        if body != "" {
          currentTheme := body;
          return Respond(200, "OK");
        }
        return Respond(400, "Bad Request");
      }
      return NotAllowed;
    }

    /** `/api/tools/search`: the exhibits of the era in the query that
        match the current theme, as a JSON list. */
    method Search(verb: Verb, query: Option<string>, decode: string -> Option<string>) returns (r: Reply)
      ensures verb != Get ==> r == NotAllowed
      ensures verb == Get && EraOf(query, decode).None? ==> r == Dropped
      ensures verb == Get && EraOf(query, decode).Some? ==>
        r == Respond(200, ExhibitsJson(SearchExhibits(exhibits, currentTheme, EraOf(query, decode).value)))
    {
      if verb != Get {
        return NotAllowed;
      }
      var era := EraOf(query, decode);
      if era.None? {
        return Dropped;
      }
      var list := SearchExhibits(exhibits, currentTheme, era.value);
      var text := ConvertToJson(list);
      return Respond(200, text);
    }

    /** `/api/quiz/generate`: the request sent to the AI service when a key
        is set, and its reply's content; `reply` is the service's answer,
        None when the call throws. */
    method Generate(verb: Verb, toolName: string, reply: Option<string>) returns (r: Reply, request: Option<string>)
      ensures verb != Post ==> r == NotAllowed && request == None
      ensures verb == Post && apiKey.None? ==> r == AiError && request == None
      ensures verb == Post && apiKey.Some? ==> request == Some(RequestBody(Prompt(currentTheme, toolName)))
      ensures verb == Post && apiKey.Some? && reply.None? ==> r == AiError
      ensures verb == Post && apiKey.Some? && reply.Some? ==> r == Respond(200, ContentOf(reply.value))
    {
      request := None;
      if verb != Post {
        r := NotAllowed;
      } else if apiKey.None? {
        r := AiError;
      } else {
        request := Some(RequestBody(Prompt(currentTheme, toolName)));
        if reply.None? {
          r := AiError;
        } else {
          var content := ParseContentFromRawJson(reply.value);
          r := Respond(200, content);
        }
      }
    }

    /** `/api/quiz/post`: the body is kept, whatever it holds. */
    method PostQuiz(verb: Verb, body: string) returns (r: Reply)
      requires Valid()
      modifies this
      ensures Valid()
      ensures verb == Post ==> postedQuizzes == old(postedQuizzes) + [body] && r == Respond(200, "OK")
      ensures verb != Post ==> postedQuizzes == old(postedQuizzes) && r == NotAllowed
      ensures currentTheme == old(currentTheme) && exhibits == old(exhibits)
    {
      if verb == Post {
        postedQuizzes := postedQuizzes + [body];
        return Respond(200, "OK");
      }
      return NotAllowed;
    }

    /** `/api/quiz/list`. */
    method ListQuizzes(verb: Verb) returns (r: Reply)
      ensures r == if verb == Get then Respond(200, QuizList(postedQuizzes)) else NotAllowed
    {
      if verb == Get {
        return Respond(200, "[" + JoinWith(",", postedQuizzes) + "]");
      }
      return NotAllowed;
    }
  }

  /** The server's start: the key file `env` and the data file `data` are
      read; None when `main` does not get to serve. */
  method Start(env: Option<seq<string>>, data: Option<string>, field: (string, string) -> Option<string>)
    returns (c: Option<ThemeController>)
    ensures c.None? <==> StartKey(env).None?
    ensures c.Some? ==> (fresh(c.value) && c.value.Valid()
      && c.value.apiKey == StartKey(env).value && c.value.currentTheme == Unset
      && c.value.exhibits == Loaded(data, field) && c.value.postedQuizzes == [])
  {
    var key := LoadApiKey(env);
    if key.KeyFails? {
      return None;
    }
    var held := if key.Key? then Some(key.key) else None;
    var server := new ThemeController(held);
    server.LoadJsonData(data, field);
    if key.Key? && |key.key| < 5 {
      return None;
    }
    return Some(server);
  }

  // ---------------------------------------------------------------------
  // Properties

  /** A query made of `era=` and a value without `&`, where `era=` occurs
      only at the start, filters by the decoded value. */
  lemma EraOfSingleParam(v: string, decode: string -> Option<string>)
    requires v != [] && '&' !in v
    requires IndexOf("era=" + v, "era=", 1) == -1
    ensures EraOf(Some("era=" + v), decode) == decode(v)
  {
    HttpQuery.SingleParam("era=", v);
    assert MatchesAt("era=" + v, "era=", 0) by {
      assert ("era=" + v)[..4] == "era=";
    }
  }

  /** A query that ends in its only `era=` leaves the search unanswered. */
  lemma EmptyEraDropped(pre: string, decode: string -> Option<string>)
    requires IndexOf(pre + "era=", "era=", 0) == |pre|
    ensures EraOf(Some(pre + "era="), decode) == None
  {
    HttpQuery.KeyAtEndThrows(pre, "era=");
  }

  /** Without a query, or without `era=` in it, the search filters by the
      empty era. */
  lemma NoEraParam(query: Option<string>, decode: string -> Option<string>)
    requires query.None? || !Contains(query.value, "era=")
    ensures EraOf(query, decode) == decode("")
  {
  }

  /** The list of posted quizzes holds each of them, in posting order: when
      none contains a comma, splitting the text between the brackets at the
      commas gives them back. */
  lemma QuizListReadBack(quizzes: seq<string>)
    requires quizzes != []
    requires forall i :: 0 <= i < |quizzes| ==> ',' !in quizzes[i]
    ensures var t := QuizList(quizzes);
      |t| >= 2 && t[0] == '[' && t[|t| - 1] == ']' && Pieces(t[1..|t| - 1], ",") == quizzes
  {
    var t := QuizList(quizzes);
    assert t[1..|t| - 1] == JoinWith(",", quizzes);
    JoinPieces(',', quizzes);
  }

  /** A key line with a quoted key: the server starts with that key when
      it has at least five characters, and does not start otherwise. */
  lemma StartWithQuotedKey(before: seq<string>, w1: string, key: string, w2: string, after: seq<string>)
    requires forall i :: 0 <= i < |before| ==> !StartsWith(before[i], KeyPrefix)
    requires Blank(w1) && Blank(w2)
    ensures var env := Some(before + [KeyPrefix + (w1 + ("\"" + key + "\"") + w2)] + after);
      StartKey(env) == if |key| < 5 then None else Some(Some(key))
  {
    QuotedKeyRead(before, w1, key, w2, after);
  }

  /** A lone quote as the key stops the server from starting. */
  lemma LoneQuoteStopsStart(before: seq<string>, w1: string, w2: string, after: seq<string>)
    requires forall i :: 0 <= i < |before| ==> !StartsWith(before[i], KeyPrefix)
    requires Blank(w1) && Blank(w2)
    ensures StartKey(Some(before + [KeyPrefix + (w1 + "\"" + w2)] + after)).None?
  {
    LoneQuoteKeyFails(before, w1, w2, after);
  }

  /** Without a key line, or without a key file, the server starts without
      a key, and the AI endpoint answers with an error. */
  lemma StartWithoutKey(env: Option<seq<string>>)
    requires env.Some? ==> forall i :: 0 <= i < |env.value| ==> !StartsWith(env.value[i], KeyPrefix)
    ensures StartKey(env) == Some(None)
  {
    if env.Some? {
      NoKeyLine(env.value);
    }
  }

  /** A data file holding an array of brace-free objects loads, in order,
      the exhibits of the objects with a name; every one has a name. */
  lemma LoadedArray(bodies: seq<string>, field: (string, string) -> Option<string>)
    requires forall i :: 0 <= i < |bodies| ==> NoBraces(bodies[i])
    ensures Loaded(Some("[" + ArrayOf(bodies) + "]"), field) == ExhibitsOf(bodies, field)
    ensures forall e :: e in Loaded(Some("[" + ArrayOf(bodies) + "]"), field) ==> e.name != ""
  {
    ObjectBodiesOfArray(bodies);
    LoadedExhibitsNamed(bodies, field);
  }
}
