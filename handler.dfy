/**
 * The orchestrator `query_db`: acquire a connection, fetch the schema once,
 * then make up to three attempts of generate, extract and execute, and turn
 * every failure into one fixed error payload.
 *
 * The language model and the database are stubs given as values: their
 * answers are functions of the attempt number and of what the handler sends.
 */
module Handler {
  import opened Results
  import opened Text
  import opened Extractor
  import opened Prompt
  import opened Connection

  /** `max_retries`. */
  const MaxRetries: nat := 3

  /** The text of the uniform failure payload. */
  const ErrorMessage: string := "Error generating and executing query."

  /** A column value in a result row. */
  datatype Cell = Null | Int(i: int) | Str(s: string)

  /** A result row: column name to value. */
  type Row = map<string, Cell>

  /** The value under "result" in the returned dictionary: the rows, or the error text. */
  datatype Payload = Rows(rows: seq<Row>) | Message(text: string)

  /** `{"result": "Error generating and executing query."}`. */
  const ErrorPayload: Payload := Message(ErrorMessage)

  /**
   * The database as the handler sees it: whether a connection to a backend
   * can be acquired, the stringified schema (None when fetching it fails),
   * `execute_query` on attempt k (None when it fails), and whether closing
   * the connection at the end of the `with` block succeeds.
   */
  datatype Database = Database(
    connect: Backend -> bool,
    schema: Option<string>,
    execute: (nat, string) -> Option<seq<Row>>,
    closes: bool)

  /** The completion service: on attempt k, model name and prompt to text, or None when the call fails. */
  datatype Llm = Llm(complete: (nat, string, ChatPrompt) -> Option<string>)

  /** The process environment and the two collaborators. */
  datatype Env = Env(dbModeVar: Option<string>, defaultModelVar: Option<string>, db: Database, llm: Llm)

  /** One request: the current user, the optional model selector and the task. */
  datatype Request = Request(user: string, model: Option<string>, task: string)

  /** What one attempt can fail with; each kind consumes the attempt. */
  datatype AttemptError = GenerationError | ExtractionError(reason: ExtractError) | ExecutionError

  /** The returned payload, the number of attempts started, and how often the connection was released. */
  datatype Response = Response(payload: Payload, attempts: nat, releases: nat)

  /** The connection's context manager was entered: the mode is valid and acquisition succeeded. */
  predicate Acquired(env: Env) {
    var backend := SelectBackend(DbMode(env.dbModeVar));
    backend.Ok? && env.db.connect(backend.value)
  }

  /** The connection is acquired exactly when the mode is "local" or "mysql" and that backend accepts the connection. */
  lemma AcquiredIff(env: Env)
    ensures Acquired(env) <==>
      || (DbMode(env.dbModeVar) == "local" && env.db.connect(Local))
      || (DbMode(env.dbModeVar) == "mysql" && env.db.connect(MySql))
  {
  }

  /** The schema text the attempts work with, when the connection and the schema fetch both succeed. */
  function Setup(env: Env): (s: Option<string>)
    ensures s.Some? <==> Acquired(env) && env.db.schema.Some?
    ensures s.Some? ==> s == env.db.schema
  {
    if Acquired(env) then env.db.schema else None
  }

  /** `generate_sql_query`: the model's answer for attempt k, asked with the selected model and the built prompt. */
  function GenerateSqlQuery(env: Env, req: Request, schema: string, k: nat): Option<string> {
    env.llm.complete(
      k,
      SelectModel(req.model, DefaultModel(env.defaultModelVar)),
      BuildPrompt(schema, req.task))
  }

  /**
   * The model asked for is the requested one when it is truthy, otherwise
   * DEFAULT_MODEL when that is set, otherwise "gpt-35-turbo"; the prompt is
   * the one built from the schema text and the task.
   */
  lemma GenerateSqlQueryAsks(env: Env, req: Request, schema: string, k: nat)
    ensures IsTruthy(req.model) ==>
      GenerateSqlQuery(env, req, schema, k) == env.llm.complete(k, req.model.value, BuildPrompt(schema, req.task))
    ensures !IsTruthy(req.model) && env.defaultModelVar.Some? ==>
      GenerateSqlQuery(env, req, schema, k) == env.llm.complete(k, env.defaultModelVar.value, BuildPrompt(schema, req.task))
    ensures !IsTruthy(req.model) && env.defaultModelVar.None? ==>
      GenerateSqlQuery(env, req, schema, k) == env.llm.complete(k, FallbackDefaultModel, BuildPrompt(schema, req.task))
  {
  }

  /** One attempt unit (lines 95-105): generate, extract, execute. */
  function Attempt(env: Env, req: Request, schema: string, k: nat): Result<seq<Row>, AttemptError> {
    match GenerateSqlQuery(env, req, schema, k)
    case None => Err(GenerationError)
    case Some(answer) =>
      match CleanSqlQuery(answer)
      case Err(e) => Err(ExtractionError(e))
      case Ok(query) =>
        match env.db.execute(k, query)
        case None => Err(ExecutionError)
        case Some(rows) => Ok(rows)
  }

  /**
   * An attempt succeeds exactly when generation, extraction and execution
   * all do, with the rows of the extracted query; a failure of any step
   * fails the attempt with that step's error.
   */
  lemma AttemptSteps(env: Env, req: Request, schema: string, k: nat)
    ensures var answer := GenerateSqlQuery(env, req, schema, k);
      && (Attempt(env, req, schema, k) == Err(GenerationError) <==> answer.None?)
      && (Attempt(env, req, schema, k).Err? && Attempt(env, req, schema, k).error.ExtractionError? <==>
            answer.Some? && CleanSqlQuery(answer.value).Err?)
      && (answer.Some? && CleanSqlQuery(answer.value).Err? ==>
            Attempt(env, req, schema, k) == Err(ExtractionError(CleanSqlQuery(answer.value).error)))
      && (Attempt(env, req, schema, k).Ok? <==>
            answer.Some? && CleanSqlQuery(answer.value).Ok? && env.db.execute(k, CleanSqlQuery(answer.value).value).Some?)
      && (Attempt(env, req, schema, k).Ok? ==>
            Some(Attempt(env, req, schema, k).value) == env.db.execute(k, CleanSqlQuery(answer.value).value))
  {
  }

  /** The outcome of every attempt, by attempt number. */
  type Outcomes = nat -> Result<seq<Row>, AttemptError>

  /** The attempt outcomes of a request once the schema is known. */
  function AttemptsOf(env: Env, req: Request, schema: string): Outcomes {
    (k: nat) => Attempt(env, req, schema, k)
  }

  /**
   * The attempts from number k on: the payload and the number of attempts
   * made in all. The first success is returned; otherwise the error payload
   * after the last attempt.
   */
  function RetryFrom(outcomes: Outcomes, k: nat): (r: (Payload, nat))
    requires k <= MaxRetries
    ensures k <= r.1 <= MaxRetries
    ensures k < MaxRetries ==> k < r.1
    ensures r.0.Rows? || r.0 == ErrorPayload
    decreases MaxRetries - k
  {
    if k == MaxRetries then (ErrorPayload, MaxRetries)
    else
      match outcomes(k)
      case Ok(rows) => (Rows(rows), k + 1)
      case Err(_) => RetryFrom(outcomes, k + 1)
  }

  /**
   * What `query_db` returns for a request, with the attempt count and the
   * number of releases. A failing close turns a success into the error
   * payload: the exception leaves the `with` block and reaches the outer
   * handler. After a failure the payload is the error payload anyway.
   */
  function QueryDbSpec(env: Env, req: Request): (r: Response)
    ensures r.attempts <= MaxRetries
    ensures r.releases == (if Acquired(env) then 1 else 0)
    ensures r.payload.Rows? || r.payload == ErrorPayload
    ensures r.payload.Rows? ==> Setup(env).Some? && env.db.closes && 1 <= r.attempts
    ensures Setup(env).None? ==> r.attempts == 0
  {
    if !Acquired(env) then Response(ErrorPayload, 0, 0)
    else if env.db.schema.None? then Response(ErrorPayload, 0, 1)
    else
      var r := RetryFrom(AttemptsOf(env, req, env.db.schema.value), 0);
      Response(if env.db.closes then r.0 else ErrorPayload, r.1, 1)
  }

  /**
   * `query_db` (lines 74-115). The `with` block releases the connection on
   * every exit once it was acquired; the re-raise after the last failed
   * attempt and the outer `except` both end in the error payload, which is
   * what the loop running out leads to here.
   */
  method QueryDb(env: Env, req: Request) returns (resp: Response)
    ensures resp == QueryDbSpec(env, req)
  {
    var backend := SelectBackend(DbMode(env.dbModeVar));
    if backend.Err? {
      // ValueError from get_connection, caught by the outer handler
      return Response(ErrorPayload, 0, 0);
    }
    if !env.db.connect(backend.value) {
      return Response(ErrorPayload, 0, 0);
    }
    var payload := ErrorPayload;
    var attempts := 0;
    var schema := env.db.schema;
    if schema.Some? {
      payload, attempts := RetryLoop(AttemptsOf(env, req, schema.value));
    }
    // leaving the with block releases the connection; a failing close is
    // caught by the outer handler
    var releases := 1;
    if !env.db.closes {
      payload := ErrorPayload;
    }
    resp := Response(payload, attempts, releases);
  }

  /**
   * The `for attempt in range(max_retries)` loop (lines 93-109): run the
   * attempts in order, stop at the first success with its rows, and count
   * the attempts started.
   */
  method RetryLoop(outcomes: Outcomes) returns (payload: Payload, attempts: nat)
    ensures (payload, attempts) == RetryFrom(outcomes, 0)
  {
    payload := ErrorPayload;
    attempts := 0;
    var attempt := 0;
    while attempt < MaxRetries
      invariant attempt <= MaxRetries
      invariant attempts == attempt && payload == ErrorPayload
      invariant RetryFrom(outcomes, attempt) == RetryFrom(outcomes, 0)
    {
      attempts := attempt + 1;
      var outcome := outcomes(attempt);
      if outcome.Ok? {
        payload := Rows(outcome.value);
        return;
      }
      attempt := attempt + 1;
    }
  }

  /** The first successful attempt from i on decides RetryFrom(i). */
  lemma {:induction false} RetryFirstSuccess(outcomes: Outcomes, i: nat, k: nat)
    requires i <= k < MaxRetries
    requires forall j :: i <= j < k ==> outcomes(j).Err?
    requires outcomes(k).Ok?
    ensures RetryFrom(outcomes, i) == (Rows(outcomes(k).value), k + 1)
    decreases k - i
  {
    if i < k {
      RetryFirstSuccess(outcomes, i + 1, k);
    }
  }

  /** When every attempt from i on fails, RetryFrom(i) is the error payload after all attempts. */
  lemma {:induction false} RetryExhausted(outcomes: Outcomes, i: nat)
    requires i <= MaxRetries
    requires forall j :: i <= j < MaxRetries ==> outcomes(j).Err?
    ensures RetryFrom(outcomes, i) == (ErrorPayload, MaxRetries)
    decreases MaxRetries - i
  {
    if i < MaxRetries {
      RetryExhausted(outcomes, i + 1);
    }
  }

  /**
   * RetryFrom(i) in terms of the attempts alone: it stops at the first
   * success, every earlier attempt failed, and it reports the error payload
   * only once the last attempt has failed too.
   */
  lemma {:induction false} RetryCharacterization(outcomes: Outcomes, i: nat)
    requires i < MaxRetries
    ensures var (p, n) := RetryFrom(outcomes, i);
      && i < n <= MaxRetries
      && (forall j :: i <= j < n - 1 ==> outcomes(j).Err?)
      && (outcomes(n - 1).Ok? ==> p == Rows(outcomes(n - 1).value))
      && (outcomes(n - 1).Err? ==> n == MaxRetries && p == ErrorPayload)
    decreases MaxRetries - i
  {
    if outcomes(i).Err? && i + 1 < MaxRetries {
      RetryCharacterization(outcomes, i + 1);
    }
  }

  /**
   * What every request gets: at most three attempts; the connection released
   * exactly once when it was acquired and never otherwise; no attempt and the
   * error payload when the mode, the connection or the schema fetch fails;
   * otherwise the rows of the first successful attempt, or the error payload
   * after three failed ones.
   */
  lemma QueryDbCharacterization(env: Env, req: Request)
    ensures var r := QueryDbSpec(env, req);
      && r.attempts <= MaxRetries
      && r.releases == (if Acquired(env) then 1 else 0)
      && (Setup(env).None? ==> r.payload == ErrorPayload && r.attempts == 0)
      && (Setup(env).Some? ==>
            var o := AttemptsOf(env, req, Setup(env).value);
            && 1 <= r.attempts
            && (forall j :: 0 <= j < r.attempts - 1 ==> o(j).Err?)
            && (o(r.attempts - 1).Ok? ==>
                  r.payload == if env.db.closes then Rows(o(r.attempts - 1).value) else ErrorPayload)
            && (o(r.attempts - 1).Err? ==> r.attempts == MaxRetries && r.payload == ErrorPayload))
  {
    if Setup(env).Some? {
      var o := AttemptsOf(env, req, Setup(env).value);
      QueryDbSpecRetries(env, req);
      RetryThenClose(o, env.db.closes, QueryDbSpec(env, req));
    }
  }

  /** Once the schema is known, the response is the retry result, with a failing close turning it into the error payload. */
  lemma QueryDbSpecRetries(env: Env, req: Request)
    requires Setup(env).Some?
    ensures var r := RetryFrom(AttemptsOf(env, req, Setup(env).value), 0);
      QueryDbSpec(env, req) == Response(if env.db.closes then r.0 else ErrorPayload, r.1, 1)
  {
  }

  /** The retry characterisation carried over to the response, for any outcome of the close. */
  lemma RetryThenClose(o: Outcomes, closes: bool, r: Response)
    requires r == Response(if closes then RetryFrom(o, 0).0 else ErrorPayload, RetryFrom(o, 0).1, 1)
    ensures && 1 <= r.attempts <= MaxRetries
      && (forall j :: 0 <= j < r.attempts - 1 ==> o(j).Err?)
      && (o(r.attempts - 1).Ok? ==> r.payload == if closes then Rows(o(r.attempts - 1).value) else ErrorPayload)
      && (o(r.attempts - 1).Err? ==> r.attempts == MaxRetries && r.payload == ErrorPayload)
  {
    RetryCharacterization(o, 0);
  }

  /**
   * A stub that fails the first k attempts and succeeds on attempt k + 1 gets
   * that attempt's rows after exactly k + 1 attempts, unless closing the
   * connection fails, which gives the error payload.
   */
  lemma QueryDbFirstSuccess(env: Env, req: Request, k: nat)
    requires Setup(env).Some? && k < MaxRetries
    requires forall j :: 0 <= j < k ==> Attempt(env, req, Setup(env).value, j).Err?
    requires Attempt(env, req, Setup(env).value, k).Ok?
    ensures QueryDbSpec(env, req) == Response(
      if env.db.closes then Rows(Attempt(env, req, Setup(env).value, k).value) else ErrorPayload, k + 1, 1)
  {
    RetryFirstSuccess(AttemptsOf(env, req, Setup(env).value), 0, k);
  }

  /** A stub that always fails gets the error payload after exactly three attempts. */
  lemma QueryDbExhausted(env: Env, req: Request)
    requires Setup(env).Some?
    requires forall j :: 0 <= j < MaxRetries ==> Attempt(env, req, Setup(env).value, j).Err?
    ensures QueryDbSpec(env, req) == Response(ErrorPayload, MaxRetries, 1)
  {
    RetryExhausted(AttemptsOf(env, req, Setup(env).value), 0);
  }

  /** The model's answer in the worked scenario. */
  const ScenarioAnswer: string := "Sure! " + Open + "\n" + ScenarioQuery + "\n" + Close + " "

  /** The query the worked scenario expects to be extracted. */
  const ScenarioQuery: string := "SELECT email FROM users;"

  /** The one row the worked scenario's database returns. */
  const ScenarioRow: Row := map["email" := Str("a@x.com")]

  /** The worked scenario's environment: modes unset, a database that answers only the expected query, a model that always gives ScenarioAnswer. */
  function ScenarioEnv(schema: string): Env {
    Env(
      None, None,
      Database(b => true, Some(schema),
               (k: nat, q: string) => if q == ScenarioQuery then Some([ScenarioRow]) else None,
               true),
      Llm((k: nat, m: string, p: ChatPrompt) => Some(ScenarioAnswer)))
  }

  /** The prose ahead of the scenario's code block holds no opening marker. */
  lemma ScenarioProse()
    ensures !Contains("Sure! ", Open)
  {
    forall j: nat
      ensures !OccursAt("Sure! ", Open, j)
    {
      if j == 0 {
        assert "Sure! "[0..6][0] == 'S';
      }
    }
  }

  /** The scenario's query holds no backtick, so no closing marker. */
  lemma ScenarioQueryUnfenced()
    ensures !Contains(ScenarioQuery, Close)
  {
    var sql := ScenarioQuery;
    forall j: nat
      ensures !OccursAt(sql, Close, j)
    {
      if j + 3 <= |sql| {
        assert sql[j..j + 3][0] == sql[j];
        assert '`' !in sql;
      }
    }
  }

  /** The worked scenario's answer extracts to the expected query. */
  lemma ScenarioExtraction()
    ensures CleanSqlQuery(ScenarioAnswer) == Ok(ScenarioQuery)
  {
    ScenarioProse();
    ScenarioQueryUnfenced();
    PaddedRoundTrip("Sure! ", ScenarioQuery, " ");
    StripStripped(ScenarioQuery);
  }

  /**
   * The worked scenario end to end: whatever the schema and the task, the
   * request gets the one row after one attempt, and the connection is
   * released once.
   */
  lemma EndToEnd(schema: string, task: string)
    ensures QueryDbSpec(ScenarioEnv(schema), Request("alice", None, task)) == Response(Rows([ScenarioRow]), 1, 1)
  {
    var env, req := ScenarioEnv(schema), Request("alice", None, task);
    assert Acquired(env);
    assert GenerateSqlQuery(env, req, schema, 0) == Some(ScenarioAnswer);
    ScenarioExtraction();
    assert Attempt(env, req, schema, 0) == Ok([ScenarioRow]);
    assert RetryFrom(AttemptsOf(env, req, schema), 0) == (Rows([ScenarioRow]), 1);
  }
}
