# sql-connector handler: a verified model

This project models the request handler of the sql-connector assistant
(`sql-connector/assistants/handler.py`). A user's task in plain language is
turned into SQL by a language model, and the SQL is run against a database.
The handler's own deterministic logic is modelled and proved:

- **`clean_sql_query`** (module `Extractor`, string helpers in `Text`).
  It finds the first "```sql", moves past it, and finds the next "```" in
  what follows. It returns the text in between, stripped of surrounding
  whitespace. It fails when either marker is missing. Python's `str.find`
  and `str.strip()` are modelled exactly, including Python's set of
  whitespace characters.
- **The deterministic part of `generate_sql_query`** (module `Prompt`):
  - the model fallback: the requested model when it is truthy, otherwise
    DEFAULT_MODEL, otherwise "gpt-35-turbo";
  - the four `replace` calls that delete `[`, `]`, `{` and `}` from the
    schema text;
  - the two-message chat prompt built around the schema text.
- **`get_connection`'s mode dispatch** (module `Connection`): "local",
  "mysql", or a `ValueError` naming the mode. The default mode is "local".
- **`query_db`** (module `Handler`):
  - it acquires the connection and fetches the schema once;
  - it makes up to three attempts of generate, extract and execute;
  - it returns the first success;
  - it turns every failure into the fixed payload "Error generating and
    executing query.".

  It is a method proved equal to the specification function `QueryDbSpec`;
  its attempt loop (`RetryLoop`) is proved equal to `RetryFrom`. The retry
  properties are proved as lemmas about those functions.

The language model and the database are stubs passed in as values (`Env`):
- connection acquisition per backend;
- the schema fetch, which may fail;
- `execute_query` per attempt, which may fail;
- closing the connection when the `with` block is left, which may fail;
- the completion per attempt, which may fail and is given the chosen model
  and the built prompt.

The two environment variables are parameters (`Option<string>`). The
connection's `with` block is modelled by counting releases in the response.
A close that fails after a successful attempt raises out of the block to the
outer handler, so that request gets the error payload instead of its rows.

Where the code and its documentation differ, the model follows the code:

- An invalid DB_MODE does not stop the service at start-up. `get_connection`
  raises inside `query_db`'s `try`, so each request gets the error payload.
- The extracted query can be empty (`EmptyBlock`). Nothing checks for
  that before execution.
- A body written between the markers can lose its own last backtick (see
  "Behaviour worth knowing").
- The comment at line 143 names "gpt-3.5-turbo" as the default model. The
  code uses "gpt-35-turbo", and so does the model.

### Behaviour worth knowing

`clean_sql_query` stops at the first "```" after the opening marker. A query
whose last character is a backtick is cut short when the closing marker
follows it directly. An example is a MySQL-quoted identifier such as
`` SELECT * FROM `t` `` followed by "```". That backtick and the closing
marker's first two backticks already form "```".

- `Extractor.TrailingBacktickIsLost` proves this for every such body.
- `Extractor.TrailingBacktickExample` gives a concrete case: "x`" comes
  out as "x".

So the round trip holds exactly when `body + "``"` contains no "```". This
means the body holds no "```" itself and does not end in a backtick.
`Extractor.RoundTrip` and `Extractor.SuccessIsFenced` prove the round trip
in both directions. The usual layout, with a newline before the closing
marker, is never affected (`Extractor.PaddedRoundTrip`).

## Model

`Handler.Acquired`, `Handler.GenerateSqlQuery` and `Handler.Attempt` are
definitions; what they mean is stated by the lemmas `Handler.AcquiredIff`,
`Handler.GenerateSqlQueryAsks` and `Handler.AttemptSteps` below.

| member | source | states |
|---|---|---|
| Text.Find | sql-connector/assistants/handler.py:195 | `str.find`: -1 exactly when the pattern does not occur; otherwise an index where it occurs, with no occurrence before it |
| Text.Strip | sql-connector/assistants/handler.py:216 | `str.strip()`: the result starts and ends with a non-whitespace character; it is a slice of the input, and everything cut off on either side is whitespace |
| Text.StripStripped | sql-connector/assistants/handler.py:216 | stripping a string that neither starts nor ends with whitespace returns it unchanged |
| Text.StripIdempotent | sql-connector/assistants/handler.py:216 | stripping twice gives the same result as stripping once |
| Text.StripPadded | sql-connector/assistants/handler.py:216 | whitespace added on either side of a string does not change what it strips to |
| Text.StripKeepsOut | sql-connector/assistants/handler.py:211-216 | stripping never creates an occurrence of a pattern |
| Extractor.CleanSqlQuery | sql-connector/assistants/handler.py:186-216 | fails with the missing-opening-marker error if and only if "```sql" does not occur; every extracted query is stripped and contains no "```" |
| Extractor.QueryUnfenced | sql-connector/assistants/handler.py:206-216 | the stripped text before the first "```" of the remainder contains no "```" |
| Extractor.SplitAtOpen | sql-connector/assistants/handler.py:195-203 | the text is prefix + "```sql" + remainder, where the prefix holds no "```sql" and the remainder is what the code keeps past the first marker |
| Extractor.OpenAfterPrefix | sql-connector/assistants/handler.py:195 | when the prefix holds no "```sql", the first "```sql" in prefix + "```sql" + rest is at the end of the prefix; the marker cannot overlap the prefix |
| Extractor.RoundTrip | sql-connector/assistants/handler.py:194-216 | p + "```sql" + body + "```" + q extracts to strip(body) when p holds no "```sql" and body + "``" holds no "```"; whatever q holds is ignored |
| Extractor.SuccessIsFenced | sql-connector/assistants/handler.py:194-216 | the converse of the round trip: every successful extraction comes from a text of that shape, and the result is its body stripped |
| Extractor.MissingCloseIff | sql-connector/assistants/handler.py:199-208 | the missing-closing-marker error is returned exactly when the text is p + "```sql" + rest with no "```sql" in p and no "```" in rest; the opening marker's own backticks never count |
| Extractor.PaddedRoundTrip | sql-connector/assistants/handler.py:194-216 | the usual layout, "```sql" then a newline, the SQL, a newline and "```", extracts to the SQL stripped whenever the SQL holds no "```" |
| Extractor.TrailingBacktickIsLost | sql-connector/assistants/handler.py:206-211 | a body ending in a backtick loses that backtick: when s + "``" holds no "```", "```sql" + s + "`" + "```" extracts to strip(s) |
| Extractor.TrailingBacktickExample | sql-connector/assistants/handler.py:206-216 | the body "x`" holds no "```", yet "```sqlx`" followed by "```" extracts to "x" |
| Extractor.EmptyBlock | sql-connector/assistants/handler.py:211-216 | an empty code block extracts to the empty query rather than failing |
| Prompt.DefaultModel | sql-connector/assistants/handler.py:144 | the DEFAULT_MODEL value when it is set, even when it is empty; "gpt-35-turbo" when it is unset |
| Prompt.SelectModel | sql-connector/assistants/handler.py:144 | the requested model when it is truthy (present and non-empty); the default otherwise |
| Prompt.SelectModelStable | sql-connector/assistants/handler.py:144 | with a non-empty default the chosen model is never empty, and choosing again from the chosen model keeps it |
| Prompt.RemoveAll | sql-connector/assistants/handler.py:151 | `replace(c, "")`: a character occurs in the result exactly when it occurs in the input and is not c |
| Prompt.Sanitize | sql-connector/assistants/handler.py:149-155 | the four chained replace calls leave no `[`, `]`, `{` or `}` |
| Prompt.DropBrackets | sql-connector/assistants/handler.py:148-155 | the reference filter (each character kept or dropped on its own, order kept) leaves no bracket or brace |
| Prompt.RemoveAllAppend | sql-connector/assistants/handler.py:151-154 | `replace(c, "")` distributes over concatenation |
| Prompt.DropBracketsAppend | sql-connector/assistants/handler.py:149-155 | the filter distributes over concatenation |
| Prompt.SanitizeIsDropBrackets | sql-connector/assistants/handler.py:149-155 | the replace chain equals the filter: exactly the brackets and braces are removed, everything else is kept in order |
| Prompt.DropBracketsKeepsFree | sql-connector/assistants/handler.py:149-155 | text with no bracket or brace passes through the filter unchanged |
| Prompt.SanitizeIdempotent | sql-connector/assistants/handler.py:149-155 | sanitising twice gives the same text as once |
| Prompt.BuildPrompt | sql-connector/assistants/handler.py:158-168 | the system message is the fixed instruction; the user message is the schema header, the sanitised schema text, the task header and the task verbatim, each at its fixed position, and its length is the sum of theirs, so nothing else is in it |
| Prompt.PromptSeesSanitisedSchemaOnly | sql-connector/assistants/handler.py:149-158 | two schema texts give the same prompt for a task if and only if they sanitise to the same text |
| Connection.DbMode | sql-connector/assistants/handler.py:33 | the DB_MODE value when it is set; "local" when it is unset |
| Connection.SelectBackend | sql-connector/assistants/handler.py:66-71 | the local backend exactly for "local", MySQL exactly for "mysql", and for every other mode the error "Invalid DB_MODE: " followed by the mode |
| Connection.UnsetModeIsLocal | sql-connector/assistants/handler.py:33-67 | with DB_MODE unset the local backend is chosen |
| Handler.AcquiredIff | sql-connector/assistants/handler.py:66-71 | the `with` block is entered exactly when the mode is "local" and the local backend connects, or the mode is "mysql" and MySQL connects |
| Handler.Setup | sql-connector/assistants/handler.py:90-91 | the attempts get a schema text exactly when the connection was acquired and the schema fetch succeeded, and it is the fetched schema |
| Handler.GenerateSqlQueryAsks | sql-connector/assistants/handler.py:141-179 | the completion is asked with the requested model when it is truthy, otherwise with DEFAULT_MODEL when set, otherwise with "gpt-35-turbo", and always with the prompt built from the schema text and the task |
| Handler.AttemptSteps | sql-connector/assistants/handler.py:94-105 | an attempt succeeds exactly when generation, extraction and execution all succeed, with the rows of the extracted query; a generation failure, an extraction failure (with its reason) or an execution failure each fails the attempt |
| Handler.RetryFrom | sql-connector/assistants/handler.py:93-109 | the attempts from k on: between k and 3 attempts in all, at least one more when k < 3; the payload is rows or the error payload |
| Handler.RetryLoop | sql-connector/assistants/handler.py:93-109 | the loop's payload and attempt count equal RetryFrom from attempt 0 |
| Handler.QueryDbSpec | sql-connector/assistants/handler.py:85-115 | at most 3 attempts; one release when the connection was acquired, none otherwise; the payload is rows or the error payload; rows only when the schema was fetched, at least one attempt was made and the close succeeded; no attempt without a schema |
| Handler.RetryThenClose | sql-connector/assistants/handler.py:93-115 | the retry characterisation carried over to the response for either outcome of the close |
| Handler.QueryDb | sql-connector/assistants/handler.py:74-115 | the method's payload, attempt count and release count equal QueryDbSpec, including the error payload when the close fails |
| Handler.RetryFirstSuccess | sql-connector/assistants/handler.py:93-105 | when attempts i to k-1 fail and attempt k succeeds, the result is attempt k's rows after k + 1 attempts |
| Handler.RetryExhausted | sql-connector/assistants/handler.py:106-115 | when every remaining attempt fails, the result is the error payload after exactly 3 attempts |
| Handler.RetryCharacterization | sql-connector/assistants/handler.py:93-109 | every failure before the last attempt made consumes that attempt; the last attempt's success gives its rows; a last failure means all 3 attempts were made and gives the error payload |
| Handler.QueryDbCharacterization | sql-connector/assistants/handler.py:85-115 | every request: at most 3 attempts; one release when the connection was acquired, none otherwise; an invalid mode, a failed connection or a failed schema fetch give the error payload after 0 attempts; otherwise the first successful attempt's rows (the error payload if the close then fails), or the error payload after 3 failed attempts |
| Handler.QueryDbFirstSuccess | sql-connector/assistants/handler.py:90-115 | stubs that fail the first k attempts and then succeed get that attempt's rows after exactly k + 1 attempts and one release, or the error payload when the close fails |
| Handler.QueryDbExhausted | sql-connector/assistants/handler.py:106-115 | stubs that always fail get the error payload after exactly 3 attempts and one release |
| Handler.ScenarioExtraction | sql-connector/assistants/handler.py:194-216 | a typical answer, prose then a fenced query padded with newlines, extracts to that query |
| Handler.EndToEnd | sql-connector/assistants/handler.py:90-105 | with both settings unset, a model that answers with a fenced query and a database that runs it and closes cleanly, any schema and task give the one row after one attempt and one release |

## Left out

- The language model call is not modelled: `get_chat_llm` and the LangChain prompt, model and output-parser chain (lines 146 and 160-179). It is a remote, non-deterministic foreign call, so it is a stub that is given the attempt number, the model name and the prompt, and may fail.
- The database backends `assistants.db.local_db` and `assistants.db.mysql_db` are not modelled, and neither is real query execution. Both are outside the handler and are stubs: acquisition, schema fetch, execution and close, each of which may fail.
- Handler.QueryDb: a connection whose `with` exit suppresses an exception instead of raising or returning normally is not modelled; such an exit would make line 111 reachable, and the backends' context managers are not part of this model.
- The `@validated` decorator and the request unpacking in `execute_sql_query` (lines 38-55) are left out. They are authentication and request plumbing outside the handler's logic; `Request` holds what they produce.
- `str(schema_info)` is left out: the schema reaches the model as text it already has, because Python's repr formatting is outside the model.
- `print` and `logging` calls are left out because they do not affect results. Environment variables are left out because they become parameters.
- The `return {"result": result}` at line 111 cannot be reached: the last failed attempt re-raises. The model takes the loop ending as the error payload, which is where that re-raise leads.
- The model selector is taken to be an optional string. Other truthy or falsy Python values (numbers, lists) are not modelled.
- Exceptions are not modelled as separate kinds of error: all failures inside `query_db` end in the same payload, and the model keeps only that.
- Prompt.BuildPrompt: does not state that the two fixed headers hold no brackets or braces. They hold none as written, but that proof over the literals costs the verifier too much. The task text may hold brackets, as it may in the code.
