/** The `CoQuery` session object, restricted to the state the query history
    keeps, with the editor and the language-model call at its boundary: the
    editor's text comes in as a parameter and what the session writes into
    the editor (`editor.setValue`) goes out as a result. */
module Session {
  import opened Wrappers
  import opened JsText
  import SqlFence
  import opened QueryHistory

  /** What `executeQuery` does with the editor's text. */
  datatype ExecuteOutcome =
    | EmptyQuery          // "Please enter a SQL query first."
    | NoDatabase          // "Please select a database first."
    | Submitted(sql: string)  // recorded, then handed to the database engine

  /** The outcome of the HTTP request made by `callGeminiForSQL`: it threw
      (network failure, non-2xx status), or it answered, with the text of the
      first candidate's first part present or missing. */
  datatype SqlCall = CallFailed | Replied(text: Option<string>)

  /** What `generateSQLFromPrompt` reports to the user. */
  datatype GenerateOutcome =
    | MissingPrompt       // "Please enter a prompt to generate SQL."
    | MissingApiKey       // "Please enter your API key to use AI features."
    | GenerationFailed    // "SQL generation failed: ..."
    | NoSqlGenerated      // "No SQL generated."
    | Inserted(sql: string)  // written into the editor and recorded

  class CoQuery {
    var queryHistory: seq<string>
    var historyIndex: int

    /** The history as a value. */
    function Model(): History
      reads this
    {
      History(queryHistory, historyIndex)
    }

    predicate Valid()
      reads this
    {
      QueryHistory.Valid(Model())
    }

    /** `new CoQuery()`: the history starts empty with no selected entry, and
        `init` then runs synchronously up to its first `await`, through
        `initializeCodeMirror`, which records the editor's initial text. */
    constructor (initialValue: string)
      ensures Valid() && Model() == Add(Initial(), initialValue)
    {
      queryHistory := [];
      historyIndex := -1;
      new;
      InitializeCodeMirror(initialValue);
    }

    /** Records `sql` unless it is empty or repeats the last entry; a recorded
        query becomes the selected one. */
    method AddToHistory(sql: string)
      requires Valid()
      modifies this
      ensures Valid() && Model() == Add(old(Model()), sql)
    {
      if sql == "" {
        return;
      }
      if |queryHistory| == 0 || queryHistory[|queryHistory| - 1] != sql {
        queryHistory := queryHistory + [sql];
        historyIndex := |queryHistory| - 1;
      }
    }

    /** The previous button: selects the entry before the current one and
        returns it for the editor, or does nothing at the first entry. */
    method ShowPreviousQuery() returns (shown: Option<string>)
      requires Valid()
      modifies this
      ensures Valid() && Model() == Back(old(Model()))
      ensures shown.Some? <==> CanGoBack(old(Model()))
      ensures shown.Some? ==> queryHistory != [] && shown.value == Selected(Model())
    {
      shown := None;
      if historyIndex > 0 {
        historyIndex := historyIndex - 1;
        shown := Some(queryHistory[historyIndex]);
      }
    }

    /** The next button: selects the entry after the current one and returns
        it for the editor, or does nothing at the last entry. */
    method ShowNextQuery() returns (shown: Option<string>)
      requires Valid()
      modifies this
      ensures Valid() && Model() == Forward(old(Model()))
      ensures shown.Some? <==> CanGoForward(old(Model()))
      ensures shown.Some? ==> queryHistory != [] && shown.value == Selected(Model())
    {
      shown := None;
      if historyIndex < |queryHistory| - 1 {
        historyIndex := historyIndex + 1;
        shown := Some(queryHistory[historyIndex]);
      }
    }

    /** Editor start-up: the editor's initial text is recorded as it is,
        untrimmed. */
    method InitializeCodeMirror(initialValue: string)
      requires Valid()
      modifies this
      ensures Valid() && Model() == Add(old(Model()), initialValue)
    {
      AddToHistory(initialValue);
    }

    /** The Run button: the trimmed editor text is recorded before it is sent
        to the database, provided it is not blank and a database is loaded.
        Whether the database then accepts it does not matter to the history. */
    method ExecuteQuery(editorValue: string, databaseLoaded: bool) returns (outcome: ExecuteOutcome)
      requires Valid()
      modifies this
      ensures Valid()
      ensures outcome == (if Trim(editorValue) == "" then EmptyQuery
                          else if !databaseLoaded then NoDatabase
                          else Submitted(Trim(editorValue)))
      ensures Model() == if outcome.Submitted? then Add(old(Model()), outcome.sql) else old(Model())
      ensures outcome.Submitted? ==> queryHistory != [] && Last(queryHistory) == outcome.sql
    {
      var sql := Trim(editorValue);
      if sql == "" {
        return EmptyQuery;
      }
      if !databaseLoaded {
        return NoDatabase;
      }
      AddToHistory(sql);
      outcome := Submitted(sql);
    }

    /** The Generate SQL button: with a non-blank prompt and API key, the SQL
        extracted from the model's reply replaces the editor text and is
        recorded, unless it is empty. */
    method GenerateSqlFromPrompt(prompt: string, apiKey: string, call: SqlCall)
      returns (outcome: GenerateOutcome)
      requires Valid()
      modifies this
      ensures Valid()
      ensures outcome == (if Trim(prompt) == "" then MissingPrompt
                          else if Trim(apiKey) == "" then MissingApiKey
                          else if call.CallFailed? then GenerationFailed
                          else if SqlFence.ExtractSql(call.text) == "" then NoSqlGenerated
                          else Inserted(SqlFence.ExtractSql(call.text)))
      ensures Model() == if outcome.Inserted? then Add(old(Model()), outcome.sql) else old(Model())
      ensures outcome.Inserted? ==> queryHistory != [] && Last(queryHistory) == outcome.sql
    {
      if Trim(prompt) == "" {
        return MissingPrompt;
      }
      if Trim(apiKey) == "" {
        return MissingApiKey;
      }
      match call
      case CallFailed =>
        outcome := GenerationFailed;
      case Replied(text) =>
        var newSql := SqlFence.ExtractSql(text);
        if newSql == "" {
          outcome := NoSqlGenerated;
        } else {
          AddToHistory(newSql);
          outcome := Inserted(newSql);
        }
    }
  }

  /** A session as a user sees it: start-up, a second query run, the
      previous button, then the second query run again. The repeat is not
      recorded, and the cursor stays on the first entry. */
  method Walkthrough(first: string, second: string)
    requires IsTrimmed(first) && IsTrimmed(second)
    requires first != "" && second != "" && first != second
  {
    TrimmedIsFixed(first);
    TrimmedIsFixed(second);
    var app := new CoQuery(first);
    assert app.queryHistory == [first] && app.historyIndex == 0;

    var run := app.ExecuteQuery(second, true);
    assert run == Submitted(second);
    assert app.queryHistory == [first, second] && app.historyIndex == 1;

    var shown := app.ShowPreviousQuery();
    assert shown == Some(first) && app.historyIndex == 0;

    run := app.ExecuteQuery(second, true);
    assert app.queryHistory == [first, second] && app.historyIndex == 0;
  }
}
