# Store-assistant chat agent and SQL helpers, modelled in Dafny

This project models the core of a retrieval-augmented question-answering
assistant for store procedures and policies. It covers two parts.

- **The SQL helpers** (`src/helper/sql_helper.py`) are modelled in `sql_helper.dfy`:
  - reading a SQLite database's table structure, with its validation order;
  - pulling the first `SELECT … ;` statement out of model output;
  - deciding whether a question is SQL-related;
  - checking that every table a query names exists;
  - cleaning quotes off a model response;
  - extracting a JSON list from a fenced model reply.
- **The chat agent** (`src/models/agent.py`) is modelled in `agent.dfy`:
  - the per-turn `GraphState`;
  - the four graph nodes: retrieve, grade documents, generate, evaluate;
  - the graph that `_create_workflow` wires;
  - the `ChatAgent` object, whose `build` and `chat` update its fields.

`text.dfy` holds the Python string primitives the helpers rely on:
- `str.lower`;
- `strip` with a character set;
- `split()` on whitespace;
- substring containment;
- `str.replace` on one character.

It also holds `" ".join`, which the helpers never call. The model uses it
only to write an example query out as text.

All text is modelled as ASCII. Whitespace is the set Python's `isspace`
accepts on ASCII: tab, line feed, vertical tab, form feed, carriage return,
the four separators 0x1C–0x1F, and space. `\s`, `split()` and `strip()`
agree on this set. `wrappers.dfy` holds `Option` and `Result`. `json.dfy`
holds a JSON value type.

Everything outside the program is a parameter:
- The sqlite connection is replaced by the data it would return: whether
  the file exists, the tables in fetch order with their `PRAGMA table_info`
  rows, and the set of table names.
- `json.loads` is a function `string -> Option<Json>`, with `None` when it
  raises.
- The retriever, the document grader, the QA chain and the answer grader
  are total functions gathered in `Agent.Oracles`. The agent is constructed
  with them, as the source constructs its `ChatOllama` and retriever in
  `__init__`. Because of the LLM cache, the same prompt gives the same
  answer.
- LangGraph's semantics are written out:
  - a node returns the keys it sets, which overwrite the state's;
  - a run follows the first edge leaving each node until `END`;
  - at most 25 node steps are allowed (the default recursion limit);
  - a missing dict key is a `KeyError`, and subscripting a non-object JSON
    value is a `TypeError`.

## Model

| member | source | states |
|---|---|---|
| SqlHelper.GetDatabaseStructure | src/helper/sql_helper.py:102-138 | A missing file is reported as missing before the `.db` suffix is checked. The suffix check ignores case. An empty table list and the first table without columns are reported in that order. The call succeeds exactly when every check passes. It then returns one entry per table in fetch order, with the path as `database`. |
| SqlHelper.ColumnsOf | src/helper/sql_helper.py:135 | One column record per pragma row, in order, holding the row's name (`col[1]`) and declared type (`col[2]`). |
| SqlHelper.FindFrom | src/helper/sql_helper.py:163 | Returns the first position of the character at or after the start. None means it does not occur there. |
| SqlHelper.SearchFrom | src/helper/sql_helper.py:163-166 | The leftmost start from which `SELECT\s.*?;` matches, ending at the first `;` after `SELECT\s`. None means the pattern matches at no start. |
| SqlHelper.MatchedStatement | src/helper/sql_helper.py:163-169 | The matched span starts with a case-insensitive `select` and a whitespace character, and ends with its only `;`. It is a substring of the text and `.strip()` leaves it as it is. |
| SqlHelper.ExtractSqlQuery | src/helper/sql_helper.py:152-171 | None exactly when no case-insensitive `select` followed by whitespace has a `;` after it. Otherwise the result starts with `select` and a whitespace character and ends with its only `;`. It is a substring of the text. |
| SqlHelper.SearchFindsLeftmost | src/helper/sql_helper.py:163-166 | A match span with no matchable start before it is exactly what the search returns. |
| SqlHelper.MatchIsStripped | src/helper/sql_helper.py:168-169 | A matched statement starts with `s` and ends with `;`, so the final `.strip()` leaves it unchanged. |
| SqlHelper.ExtractSqlQueryIsLeftmost | src/helper/sql_helper.py:163-169 | Given the leftmost match position and the first `;` after it, the function returns exactly that span. |
| SqlHelper.CleanResponse | src/helper/sql_helper.py:175-179 | `clean_response`: strips double quotes twice, then single quotes twice. Its properties are `CleanResponseIsSlice`, `CleanResponseIdentity` and `CleanResponseNotIdempotent`. |
| SqlHelper.CleanResponseIsSlice | src/helper/sql_helper.py:175-179 | The cleaned response is a contiguous piece of the input. It neither starts nor ends with a single quote. |
| SqlHelper.CleanResponseIdentity | src/helper/sql_helper.py:175-179 | A response that neither starts nor ends with a quote character comes back unchanged. |
| SqlHelper.CleanResponseNotIdempotent | src/helper/sql_helper.py:177-178 | Double quotes are stripped before single quotes, so `'"x"'` cleans to `"x"` and cleaning again gives `x`. |
| SqlHelper.AnyContained | src/helper/sql_helper.py:187 | `any(n in hay …)` holds exactly when some needle occurs in the text. |
| SqlHelper.IsSqlRelated | src/helper/sql_helper.py:182-187 | True exactly when one of the nine keywords occurs as a substring of the lower-cased input. |
| SqlHelper.NoneContainedInEmpty | src/helper/sql_helper.py:187 | No non-empty keyword occurs in the empty string. |
| SqlHelper.IsSqlRelatedEmpty | src/helper/sql_helper.py:186-187 | The empty input is not SQL-related. |
| SqlHelper.IsSqlRelatedExtend | src/helper/sql_helper.py:187 | Adding text before or after an SQL-related input keeps it SQL-related. |
| SqlHelper.IsTableKeyword | src/helper/sql_helper.py:216 | `word.lower()` is one of `from`, `join`, `into`, `update`. |
| SqlHelper.IndexOf | src/helper/sql_helper.py:218 | `words.index(w)`, defined only when `w` is in the list, is a position holding `w`. |
| SqlHelper.IndexOfIsFirst | src/helper/sql_helper.py:218 | No word before `words.index(w)` equals `w`: it is the first occurrence. |
| SqlHelper.NextIndex | src/helper/sql_helper.py:218 | The index read after the keyword at `i` is at least 1 and at most `i + 1`. |
| SqlHelper.CleanTableName | src/helper/sql_helper.py:218 | `.strip(";").strip(",")` on the word read as the table name. |
| SqlHelper.CleanTableNameKeepsInnerSemicolon | src/helper/sql_helper.py:218 | The two strips run one after the other, so `a;,` becomes `a;`. |
| SqlHelper.ScannedNames | src/helper/sql_helper.py:213-219 | The set `tables_in_query` after the loop has looked at the first `n` words. Its members are given by `ScannedNamesMembers`. |
| SqlHelper.TableNames | src/helper/sql_helper.py:213-219 | The set `tables_in_query` once the loop has seen every word. |
| SqlHelper.ScannedNamesMembers | src/helper/sql_helper.py:213-219 | A name is collected exactly when it is the cleaned word after the first occurrence of some keyword token. |
| SqlHelper.RaisesIndexErrorIff | src/helper/sql_helper.py:218 | The scan raises IndexError exactly when the last word is a keyword that does not occur earlier in the query. |
| SqlHelper.AllKnown | src/helper/sql_helper.py:226-233 | The membership loop returns True exactly when every collected name is a table of the database. |
| SqlHelper.CollectTableNames | src/helper/sql_helper.py:213-219 | The first loop raises IndexError in exactly the case above. Otherwise it yields the set of names collected by the first-occurrence scan. |
| SqlHelper.CheckTablesInQuery | src/helper/sql_helper.py:190-233 | On the whitespace-split query, the result is IndexError in exactly the case above. Otherwise it is whether every collected name is a table of the database. |
| SqlHelper.RepeatedJoinQueryKeywords | src/helper/sql_helper.py:216 | Of the words of `select * from a join b join c`, `from` and `join` are keyword tokens. `select`, `*`, `a`, `b` and `c` are not. |
| SqlHelper.RepeatedJoinQuerySplits | src/helper/sql_helper.py:214 | The query text splits back into its eight words. |
| SqlHelper.RepeatedJoinQueryScan | src/helper/sql_helper.py:215-219 | Word by word, the first-occurrence scan of the query collects `a` at `from`, `b` at the first `join` and `b` again at the second `join`, and nothing elsewhere. |
| SqlHelper.RepeatedJoinQueryRaisesNothing | src/helper/sql_helper.py:218 | The scan of the query raises no IndexError. |
| SqlHelper.RepeatedJoinQueryTableNames | src/helper/sql_helper.py:213-219 | The names the first-occurrence scan collects from the query are exactly `a` and `b`. |
| SqlHelper.CleanPlainName | src/helper/sql_helper.py:218 | A bare identifier is its own cleaned table name. |
| SqlHelper.RepeatedKeywordSkipsTable | src/helper/sql_helper.py:214-219 | `select * from a join b join c` splits into its eight words and raises nothing. The scan collects only `a` and `b`, never `c`. |
| SqlHelper.PositionalNamesMembers | src/helper/sql_helper.py:215-219 | A name is collected by the positional scan exactly when it is the cleaned word after some keyword token. |
| SqlHelper.PositionalNamesStep | src/helper/sql_helper.py:215-219 | One more word adds the cleaned next word to the positional set when it is a keyword with a word after it, and adds nothing otherwise. |
| SqlHelper.CollectTableNamesByPosition | src/helper/sql_helper.py:215-219 | A trailing keyword raises IndexError. Otherwise the loop yields the positional name set. |
| SqlHelper.PositionalNamesKnown | src/helper/sql_helper.py:226-233 | The positional name set lies inside a set of known tables exactly when the cleaned word after every keyword is known. |
| SqlHelper.CheckTablesInQueryByPosition | src/helper/sql_helper.py:213-233 | A trailing keyword raises IndexError. Otherwise the result is whether the cleaned word after every keyword token is a table of the database. |
| SqlHelper.PositionalJoinQueryScan | src/helper/sql_helper.py:215-219 | Word by word, the positional scan of the query collects `a`, `b` and `c` at the three keywords, and nothing elsewhere. |
| SqlHelper.PositionalScanSeesEveryTable | src/helper/sql_helper.py:215-219 | On `select * from a join b join c` the positional scan collects `a`, `b` and `c`. |
| SqlHelper.ScannedAtIsPositional | src/helper/sql_helper.py:215-219 | When no keyword token repeats, each word contributes the same name to both scans. |
| SqlHelper.ScanAgreesWhenKeywordsDistinct | src/helper/sql_helper.py:215-219 | When no keyword token repeats, the first-occurrence scan and the positional scan collect the same names. |
| SqlHelper.JsonPart | src/helper/sql_helper.py:250-253 | The two strips and the quote replacement that produce the text given to `json.loads`. Its properties are `JsonPartFacts` and `SecondStripIsNoop`. |
| SqlHelper.JsonPartFacts | src/helper/sql_helper.py:250-253 | The text given to `json.loads` is no longer than the input and contains no single quote. It neither starts nor ends with a character of the fence set. |
| SqlHelper.ExtractListFromString | src/helper/sql_helper.py:238-264 | The parsed list when parsing succeeds with a list. Otherwise `['None']`. It never raises. |
| SqlHelper.SecondStripIsNoop | src/helper/sql_helper.py:250 | `.strip("\n```")` after `.strip("```json\n")` removes nothing. |
| SqlHelper.ExtractListIgnoresFence | src/helper/sql_helper.py:250-262 | Wrapping a body in a json code fence does not change the extracted list, provided the body starts and ends outside the stripped characters (as `[` and `]` do). |
| Text.Lower | src/helper/sql_helper.py:187 | `str.lower()` keeps the length and lower-cases each ASCII letter, leaving other characters alone. |
| Text.LowerAppend | src/helper/sql_helper.py:187 | Lower-casing distributes over concatenation. |
| Text.Strip | src/helper/sql_helper.py:177-178 | `strip(chars)` with a character set. Its properties are `StripFacts`, `StripUnique`, `StripNoop` and `StripSubsetNoop`. |
| Text.LStripFacts | src/helper/sql_helper.py:177-178 | Left strip removes a prefix made only of the given characters. What is left is empty or starts outside the set. |
| Text.RStripFacts | src/helper/sql_helper.py:177-178 | Right strip removes a suffix made only of the given characters. What is left is empty or ends outside the set. |
| Text.StripFacts | src/helper/sql_helper.py:177-178 | `strip(chars)` gives the slice of the input between a maximal prefix and a maximal suffix of characters in the set. |
| Text.StripOccurs | src/helper/sql_helper.py:177-178 | The strip result occurs in the input right after the stripped prefix. |
| Text.StripUnique | src/helper/sql_helper.py:177-178 | A slice whose surroundings are all in the set and whose ends are not is the strip result. |
| Text.StripNoop | src/helper/sql_helper.py:177-178 | A string whose ends are outside the set is unchanged by strip. |
| Text.StripSubsetNoop | src/helper/sql_helper.py:250 | Stripping a subset of an already-stripped set changes nothing. |
| Text.ReplaceChar | src/helper/sql_helper.py:253 | `replace("'", '"')` keeps the length and changes exactly the characters equal to the old one. |
| Text.Split | src/helper/sql_helper.py:214 | `split()` yields only non-empty words without whitespace. |
| Text.SplitSkipsSpaces | src/helper/sql_helper.py:214 | A run of whitespace in front of the text adds no word. |
| Text.SplitOfSpaces | src/helper/sql_helper.py:214 | Text made only of whitespace splits into no words. |
| Text.SplitSpacesWordThen | src/helper/sql_helper.py:214 | After any run of whitespace, a word that ends the text or is followed by whitespace is the next word, and the rest of the text gives the remaining words. Together with `SplitOfSpaces` this fixes `split()` as the maximal non-whitespace runs. |
| Text.SplitLosesOnlySpace | src/helper/sql_helper.py:214 | Concatenating the words of `split()` gives the input with its whitespace removed. |
| Text.SplitJoinWords | src/helper/sql_helper.py:214 | Joining non-empty whitespace-free words with spaces and splitting again gives back the words. |
| Agent.Merge | src/models/agent.py:104-108 | The state after a node: each key the node returns replaces the state's value, and the other keys are kept. |
| Agent.Subscript | src/models/agent.py:208 | `score["score"]`: the field of a JSON object, a KeyError when the key is missing, and a TypeError on any other JSON value. |
| Agent.RetrieveDocs | src/models/agent.py:104-108 | A state without a question is a KeyError. The node succeeds exactly when the question is present. The merged state then keeps the question and generation and holds the retriever's documents. |
| Agent.FilterRelevant | src/models/agent.py:202-212 | The grading loop as a recursive function: the first unreadable grade is the error, and otherwise the documents graded "yes" are kept in order. Its properties are `FilterRelevantIsFilter` and `FilterRelevantFailure`. |
| Agent.FilterRelevantAppend | src/models/agent.py:203-212 | Grading a concatenation grades each part in turn. An error in the first part wins. |
| Agent.FilterRelevantIsFilter | src/models/agent.py:202-213 | Every kept document was graded exactly "yes", and the kept ones are a subsequence of the input. A document occurs in the result as often as in the input when graded "yes", and otherwise not at all. |
| Agent.FilterRelevantFailure | src/models/agent.py:203-208 | Grading fails exactly when some document's reply has no readable `score`. It fails with the error of the first such document. |
| Agent.GradeDocuments | src/models/agent.py:185-213 | A missing question is reported before missing documents. With both present, the node succeeds exactly when every document's grade is readable, and otherwise fails with the grading error. On success the merged state keeps the question and generation. Its documents are a subsequence of the input, each graded "yes", and every document graded "yes" is kept as often as it occurs. |
| Agent.RetrievalGrader | src/models/agent.py:185-213 | The grading loop returns exactly the grade_docs node's result: the same errors and the same kept documents. |
| Agent.RagQa | src/models/agent.py:215-228 | A missing question, then missing documents, is a KeyError. The node succeeds exactly when both are present. The merged state then keeps both and holds the generator's answer. |
| Agent.EvaluateResponse | src/models/agent.py:121-166 | A missing question, then documents, then generation is a KeyError on that key. A reply whose `score` cannot be read fails with the KeyError or TypeError from subscripting it. Succeeds exactly when question, documents, generation and the reply's `score` are all present. The question and documents pass through. The generation passes through on "yes" and becomes the fixed fallback answer otherwise. |
| Agent.DefaultWorkflow | src/models/agent.py:78-98 | The graph `_create_workflow` wires, call for call. Its shape is given by `DefaultWorkflowNodes`, `DefaultWorkflowEdges` and `DefaultWorkflowPath`. |
| Agent.SuccessorIsEdge | src/models/agent.py:86-98 | The next endpoint is the target of an edge leaving the current one. There is none exactly when no edge leaves it. |
| Agent.DefaultWorkflowEdges | src/models/agent.py:86-98 | The built graph has exactly four edges, in the order they are added. |
| Agent.DefaultSuccessors | src/models/agent.py:86-98 | From START, retrieve, grade_docs and generate, the next endpoints are retrieve, grade_docs, generate and END. |
| Agent.DefaultWorkflowNodes | src/models/agent.py:78-82 | The built graph registers exactly grade_docs, retrieve, generate and evaluate, each bound to its method. |
| Agent.DefaultWorkflowPath | src/models/agent.py:86-98 | The built graph's path from START is START, retrieve, grade_docs, generate, END. |
| Agent.UnenteredNodeUnreachable | src/models/agent.py:82-98 | A node no edge enters is never on a path from any other endpoint. |
| Agent.EvaluateUnreachable | src/models/agent.py:82-100 | `evaluate` is registered but lies on no path from START, for any number of steps. |
| Agent.Run | src/models/agent.py:231 | A compiled graph's run: run the node, merge its update, follow the first outgoing edge, and stop at END or at a node without an outgoing edge. An unregistered node fails, and so does a 26th node step. |
| Agent.Invoke | src/models/agent.py:231 | `self.agent.invoke(question)`: a run from the target of START's edge. |
| Agent.Turn | src/models/agent.py:104-228 | One turn without a question is a KeyError. With a question, the turn succeeds exactly when every retrieved document's grade is readable, and otherwise fails with the grading error. A successful turn keeps the question. Its documents are a subsequence of the retrieved ones. They are exactly the documents graded "yes", each as often as it was retrieved. Its generation is the generator's answer for them. |
| Agent.InvokeDefaultWorkflow | src/models/agent.py:86-102 | Invoking the compiled graph equals one turn, for every input and every oracle. The answer grader is never consulted. |
| Agent.ChatAgent.constructor | src/models/agent.py:67-72 | A new agent has no messages, no workflow and no compiled agent. |
| Agent.ChatAgent.Build | src/models/agent.py:74-75 | After `build`, the workflow is the graph `_create_workflow` wires, and the agent is that graph compiled. |
| Agent.ChatAgent.CreateWorkflow | src/models/agent.py:77-102 | Updates the `workflow` field once per `add_node` and `add_edge` call. It then stores the compiled graph in `agent`. Afterwards `workflow` is the graph `DefaultWorkflow` describes, and `messages` is unchanged. |
| Agent.ChatAgent.Chat | src/models/agent.py:230-231 | Before `build` it fails with AttributeError. After it, it returns the compiled graph's result on the input. |
| Agent.BuildAndChat | src/models/agent.py:244-248 | Constructing, building and chatting with one question gives exactly one turn on that question. |
| Agent.ChatWithoutBuild | src/models/agent.py:230-231 | Chatting with an agent that was never built fails with AttributeError. |

## Left out

- `GetDatabaseStructure` does not model the sqlite connection: I/O stays outside the model. The file-exists test and the query results are parameters. The `RuntimeError` that wraps `sqlite3.Error` is not modelled, and neither is closing the connection.
- `GetDatabaseStructure` returns the structure as a record, not as the text of `json.dumps(..., indent=4)`. Serialisation is not modelled.
- `CheckTablesInQuery` takes the database's table set as a parameter. Opening the database and the `sqlite_master` query are I/O.
- `ExtractListFromString` takes `json.loads` as a parameter. The JSON grammar is not modelled. Any exception from parsing is a `None` result.
- Unicode is not modelled. Lower-casing and whitespace cover ASCII only. Python's Unicode case mapping and whitespace classes are wider.
- The retriever, the LLM chains, their prompts and the SQLite LLM cache are not modelled. They are oracle functions, assumed deterministic.
- The oracles' own exceptions are not modelled. The oracles are total functions, so the model has none of these failures:
  - `JsonOutputParser` raising on a reply that is not JSON, in `grade_docs` or `evaluate`;
  - transport errors from `ChatOllama` or from the Chroma retriever;
  - any other exception raised inside a chain.
  The only failures in the model are those the agent's own code and the graph runner raise: a missing state key, a grade reply without a `score` key, subscripting a non-object grade, calling `chat` before `build`, a run that reaches an unregistered node, and the recursion limit.
- `format_docs` (`src/helper/utlis.py`) is not part of this model. The generator oracle receives the documents themselves.
- `print` calls, `display_graph`, and the unused `_route_model`, `_sql_agent` and `_expand_query` methods are not modelled.
- The unused `Grade` and `Feedback` classes are not modelled. The `messages` list is never read or written after `__init__`, so only its initial empty value is modelled.
- LangGraph internals are reduced to what this graph uses:
  - duplicate-name and edge checks at `add_node`, `add_edge` and `compile`;
  - parallel branches when a node has several outgoing edges;
  - checkpoints and streaming.
  `Run` follows the first outgoing edge only, and the built graph has at most one per node.
- `Run` counts node steps against the recursion limit of 25. LangGraph counts supersteps. The two agree on a graph with one outgoing edge per node.
- The CSV loader, the RAG and embedding setup, the metrics, the prompts module and the Streamlit pages are outside the modelled core.

## Findings

| source | as written | input that shows it | evidently intended | confidence | as-written member | corrected member |
|---|---|---|---|---|---|---|
| src/helper/sql_helper.py:218 | `words[words.index(word) + 1]` reads the word after the FIRST occurrence of the keyword token, so a repeated keyword re-reads the same table and later tables are never checked | query `select * from a join b join c` against a database with tables `a` and `b`: `c` is never checked, and the result is True | read the word after each keyword by its own position (`enumerate`), so every named table is checked | high for the reasoning, not executed | SqlHelper.RepeatedKeywordSkipsTable | SqlHelper.CheckTablesInQueryByPosition |
