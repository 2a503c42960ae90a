/**
 * The deterministic part of `generate_sql_query`: choosing the model,
 * removing brackets and braces from the stringified schema, and splicing it
 * into the fixed prompt template.
 */
module Prompt {
  import opened Results

  /** Used when the DEFAULT_MODEL environment variable is not set. */
  const FallbackDefaultModel: string := "gpt-35-turbo"

  /** `os.environ.get("DEFAULT_MODEL", "gpt-35-turbo")`: a variable set to "" is used as it is. */
  function DefaultModel(defaultModelVar: Option<string>): (m: string)
    ensures defaultModelVar.Some? ==> m == defaultModelVar.value
    ensures defaultModelVar.None? ==> m == FallbackDefaultModel
  {
    defaultModelVar.GetOr(FallbackDefaultModel)
  }

  /** Python truthiness of the optional model selector: None and "" are false. */
  predicate IsTruthy(model: Option<string>) {
    model.Some? && model.value != ""
  }

  /** `model if model else default`: the requested model when truthy, else the default. */
  function SelectModel(model: Option<string>, default: string): (m: string)
    ensures IsTruthy(model) ==> m == model.value
    ensures !IsTruthy(model) ==> m == default
  {
    if IsTruthy(model) then model.value else default
  }

  /** The choice is never empty once the default is not, and re-selecting the chosen model keeps it. */
  lemma SelectModelStable(model: Option<string>, default: string)
    requires default != ""
    ensures SelectModel(model, default) != ""
    ensures SelectModel(Some(SelectModel(model, default)), default) == SelectModel(model, default)
  {
  }

  /** The characters removed from the schema text before it enters the prompt. */
  predicate IsBracket(c: char) {
    c == '[' || c == ']' || c == '{' || c == '}'
  }

  /** No character of `s` is a bracket or a brace. */
  predicate BracketFree(s: string) {
    forall i :: 0 <= i < |s| ==> !IsBracket(s[i])
  }

  /** Python's `s.replace(c, "")` for a one-character `c`: every `c` deleted, every other character kept as often as before. */
  function RemoveAll(s: string, c: char): (r: string)
    ensures forall x :: x in r <==> x in s && x != c
  {
    if s == [] then []
    else
      assert s == [s[0]] + s[1..];
      (if s[0] == c then [] else [s[0]]) + RemoveAll(s[1..], c)
  }

  /** The four chained `replace` calls of lines 149-155, in their order. */
  function Sanitize(schemaText: string): (r: string)
    ensures BracketFree(r)
  {
    var r := RemoveAll(RemoveAll(RemoveAll(RemoveAll(schemaText, '['), ']'), '{'), '}');
    assert forall i :: 0 <= i < |r| ==> r[i] in r;
    r
  }

  /** Reference definition: the schema text with exactly the brackets and braces filtered out, order kept. */
  function DropBrackets(s: string): (r: string)
    ensures BracketFree(r)
  {
    if s == [] then []
    else
      (if IsBracket(s[0]) then [] else [s[0]]) + DropBrackets(s[1..])
  }

  /** `replace(c, "")` distributes over concatenation. */
  lemma {:induction false} RemoveAllAppend(a: string, b: string, c: char)
    ensures RemoveAll(a + b, c) == RemoveAll(a, c) + RemoveAll(b, c)
  {
    if a == [] {
      assert a + b == b;
    } else {
      var h: string := if a[0] == c then [] else [a[0]];
      assert (a + b)[0] == a[0] && (a + b)[1..] == a[1..] + b;
      assert RemoveAll(a + b, c) == h + RemoveAll(a[1..] + b, c);
      RemoveAllAppend(a[1..], b, c);
      assert RemoveAll(a, c) == h + RemoveAll(a[1..], c);
    }
  }

  /** The four-step replace chain is the single filter: order is kept and only brackets and braces go. */
  lemma {:induction false} SanitizeIsDropBrackets(s: string)
    ensures Sanitize(s) == DropBrackets(s)
  {
    if s != [] {
      var h, t := [s[0]], s[1..];
      assert s == h + t;
      RemoveAllAppend(h, t, '[');
      RemoveAllAppend(RemoveAll(h, '['), RemoveAll(t, '['), ']');
      RemoveAllAppend(RemoveAll(RemoveAll(h, '['), ']'), RemoveAll(RemoveAll(t, '['), ']'), '{');
      RemoveAllAppend(RemoveAll(RemoveAll(RemoveAll(h, '['), ']'), '{'),
                      RemoveAll(RemoveAll(RemoveAll(t, '['), ']'), '{'), '}');
      SanitizeIsDropBrackets(t);
      assert t == s[1..];
    }
  }

  /** Filtering distributes over concatenation: each character is kept or dropped on its own. */
  lemma {:induction false} DropBracketsAppend(a: string, b: string)
    ensures DropBrackets(a + b) == DropBrackets(a) + DropBrackets(b)
  {
    if a == [] {
      assert a + b == b;
    } else {
      var h: string := if IsBracket(a[0]) then [] else [a[0]];
      assert (a + b)[0] == a[0] && (a + b)[1..] == a[1..] + b;
      assert DropBrackets(a + b) == h + DropBrackets(a[1..] + b);
      DropBracketsAppend(a[1..], b);
      assert DropBrackets(a) == h + DropBrackets(a[1..]);
    }
  }

  /** Text without brackets or braces passes through unchanged. */
  lemma {:induction false} DropBracketsKeepsFree(s: string)
    requires BracketFree(s)
    ensures DropBrackets(s) == s
  {
    if s != [] {
      DropBracketsKeepsFree(s[1..]);
    }
  }

  /** Sanitising twice gives the same text as once. */
  lemma SanitizeIdempotent(s: string)
    ensures Sanitize(Sanitize(s)) == Sanitize(s)
  {
    SanitizeIsDropBrackets(Sanitize(s));
    DropBracketsKeepsFree(Sanitize(s));
  }

  /** The fixed system message. */
  const SystemInstruction: string :=
    "You are an AI skilled in SQL. Generate a query based on the given schema and user request. Provide all SQL queries in markdown."

  /** The text of the user message ahead of the schema. */
  const SchemaHeader: string := "Given the database schema:\n\n"
  /** The text of the user message between the schema and the task. */
  const TaskHeader: string := "\n\nGenerate a SQL query for:\n\n"

  /** The two-message chat prompt: a system message and a user message. */
  datatype ChatPrompt = ChatPrompt(system: string, user: string)

  /**
   * The prompt of lines 149-168: the fixed system message, and a user
   * message that opens with the schema header, continues with the sanitised
   * schema text and ends with the task verbatim.
   */
  function BuildPrompt(schemaText: string, task: string): (p: ChatPrompt)
    ensures p.system == SystemInstruction
    ensures |p.user| == |SchemaHeader| + |Sanitize(schemaText)| + |TaskHeader| + |task|
    ensures p.user[..|SchemaHeader|] == SchemaHeader
    ensures p.user[|SchemaHeader|..|SchemaHeader| + |Sanitize(schemaText)|] == Sanitize(schemaText)
    ensures p.user[|SchemaHeader| + |Sanitize(schemaText)|..|p.user| - |task|] == TaskHeader
    ensures p.user[|p.user| - |task|..] == task
  {
    var clean := Sanitize(schemaText);
    var head := SchemaHeader + clean + TaskHeader;
    PromptHeadShape(clean);
    ChatPrompt(SystemInstruction, head + task)
  }

  /** The part of the user message ahead of the task: the schema header, the schema text, then the task header. */
  lemma PromptHeadShape(clean: string)
    ensures var head := SchemaHeader + clean + TaskHeader;
      && head[..|SchemaHeader|] == SchemaHeader
      && head[|SchemaHeader|..|SchemaHeader| + |clean|] == clean
      && head[|SchemaHeader| + |clean|..] == TaskHeader
  {
    var head := SchemaHeader + clean + TaskHeader;
    assert head[..|SchemaHeader|] == SchemaHeader;
    assert head[|SchemaHeader|..|SchemaHeader| + |clean|] == clean;
    assert head[|SchemaHeader| + |clean|..] == TaskHeader;
  }

  /** The prompt depends on the schema only through its sanitised text: moving or adding brackets changes nothing. */
  lemma PromptSeesSanitisedSchemaOnly(s1: string, s2: string, task: string)
    ensures BuildPrompt(s1, task) == BuildPrompt(s2, task) <==> Sanitize(s1) == Sanitize(s2)
  {
    if BuildPrompt(s1, task) == BuildPrompt(s2, task) {
      var u := BuildPrompt(s1, task).user;
      assert |Sanitize(s1)| == |Sanitize(s2)|;
      assert Sanitize(s1) == u[|SchemaHeader|..|SchemaHeader| + |Sanitize(s1)|] == Sanitize(s2);
    }
  }
}
