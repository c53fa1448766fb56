/** The retrieval-augmented chat agent: a graph of four nodes over a
    per-turn state, wired linearly as retrieve -> grade_docs -> generate.
    The language model, the retriever and the prompts are not modelled;
    each model call is an oracle, a total function of its inputs, gathered
    in `Oracles` and handed to the agent when it is constructed. */
module Agent {
  import opened Wrappers
  import opened Json

  /** A retrieved chunk: its text and its source metadata. */
  datatype Document = Document(pageContent: string, metadata: map<string, string>)

  /** `GraphState` as LangGraph holds it: a dict in which each key may be
      absent. A node returns a dict of the keys it sets, which `Merge`
      writes over the current state. */
  datatype GraphState = GraphState(
    question: Option<string>,
    documents: Option<seq<Document>>,
    generation: Option<string>)

  /** The exceptions a turn can raise. */
  datatype AgentError =
    | KeyError(key: string)   // a missing dict key: state["..."] or score["score"]
    | TypeError               // `["score"]` applied to a JSON value that is not an object
    | AttributeError          // `self.agent.invoke` while `agent` is still None
    | UnknownNode(name: string)
    | GraphRecursionError     // more steps than LangGraph's recursion limit

  /** The model calls of one agent. `gradeDocument(question, page_content)`
      and `gradeAnswer(question, generation)` are the JSON the grading
      chains return; `generate(question, documents)` is the answer of the
      QA chain, whose context is the formatted documents. */
  datatype Oracles = Oracles(
    retrieve: string -> seq<Document>,
    gradeDocument: (string, string) -> Json,
    generate: (string, seq<Document>) -> string,
    gradeAnswer: (string, string) -> Json)

  /** LangGraph's default reducer: each key a node returns replaces the
      state's value; keys it does not return are kept. */
  function Merge(state: GraphState, update: GraphState): GraphState {
    GraphState(
      if update.question.Some? then update.question else state.question,
      if update.documents.Some? then update.documents else state.documents,
      if update.generation.Some? then update.generation else state.generation)
  }

  /** `value[key]` on the JSON that a grading chain returns. */
  function Subscript(value: Json, key: string): Result<Json, AgentError> {
    match value
    case JObject(fields) => if key in fields then Success(fields[key]) else Failure(KeyError(key))
    case _ => Failure(TypeError)
  }

  /** The grade `grade == "yes"` accepts: exactly the JSON string yes. */
  const Yes: Json := JString("yes")

  // ---------------------------------------------------------------------
  // retrieve

  /** `_retrive_docs`: look the question up and return it with the
      retrieved documents. */
  function RetrieveDocs(state: GraphState, retrieve: string -> seq<Document>): (r: Result<GraphState, AgentError>)
    ensures state.question.None? <==> r == Failure(KeyError("question"))
    ensures r.Success? <==> state.question.Some?
    ensures r.Success? ==>
      var next := Merge(state, r.value);
      && next.question == state.question
      && next.documents == Some(retrieve(state.question.value))
      && next.generation == state.generation
  {
    match state.question
    case None => Failure(KeyError("question"))
    case Some(q) => Success(GraphState(Some(q), Some(retrieve(q)), None))
  }

  // ---------------------------------------------------------------------
  // grade_docs

  /** `retrieval_grader.invoke({"question", "document"})["score"]` for one
      document. */
  function GradeOf(question: string, doc: Document, grader: (string, string) -> Json): Result<Json, AgentError> {
    Subscript(grader(question, doc.pageContent), "score")
  }

  /** The documents the grading loop keeps, in order: those whose grade is
      exactly "yes". The first document whose grade cannot be read aborts
      the loop with that error. */
  function FilterRelevant(question: string, docs: seq<Document>, grader: (string, string) -> Json)
    : Result<seq<Document>, AgentError>
    decreases |docs|
  {
    if docs == [] then Success([])
    else
      match GradeOf(question, docs[0], grader)
      case Failure(e) => Failure(e)
      case Success(grade) =>
        match FilterRelevant(question, docs[1..], grader)
        case Failure(e) => Failure(e)
        case Success(rest) => Success(if grade == Yes then [docs[0]] + rest else rest)
  }

  /** Filtering a concatenation filters each part; an error in the first
      part wins. */
  lemma {:induction false} FilterRelevantAppend(
    question: string, a: seq<Document>, b: seq<Document>, grader: (string, string) -> Json)
    ensures FilterRelevant(question, a + b, grader) ==
      match FilterRelevant(question, a, grader)
      case Failure(e) => Failure(e)
      case Success(x) =>
        match FilterRelevant(question, b, grader)
        case Failure(e) => Failure(e)
        case Success(y) => Success(x + y)
    decreases |a|
  {
    if a == [] {
      assert a + b == b;
      match FilterRelevant(question, b, grader)
      case Failure(_) =>
      case Success(y) => assert [] + y == y;
    } else {
      assert (a + b)[0] == a[0];
      assert (a + b)[1..] == a[1..] + b;
      FilterRelevantAppend(question, a[1..], b, grader);
      match FilterRelevant(question, a[1..], grader)
      case Failure(_) =>
      case Success(x) =>
        match FilterRelevant(question, b, grader)
        case Failure(_) =>
        case Success(y) =>
          assert [a[0]] + x + y == [a[0]] + (x + y);
    }
  }

  /** Filtering one document keeps it iff its grade is "yes". */
  lemma FilterRelevantSingle(question: string, doc: Document, grader: (string, string) -> Json)
    ensures GradeOf(question, doc, grader).Success? ==>
      FilterRelevant(question, [doc], grader) ==
        Success(if GradeOf(question, doc, grader).value == Yes then [doc] else [])
  {
    var docs := [doc];
    assert docs[0] == doc;
    assert docs[1..] == [];
    var none: seq<Document> := [];
    assert FilterRelevant(question, docs[1..], grader) == Success(none);
    match GradeOf(question, doc, grader)
    case Failure(_) =>
    case Success(grade) =>
      assert FilterRelevant(question, docs, grader) == Success(if grade == Yes then [doc] + none else none);
      assert [doc] + none == [doc];
  }

  /** Greedy subsequence test: `xs` is `ys` with some elements removed,
      the rest kept in order. */
  predicate IsSubsequence<T(==)>(xs: seq<T>, ys: seq<T>)
    decreases |ys|
  {
    xs == [] ||
    (ys != [] &&
     if xs[0] == ys[0] then IsSubsequence(xs[1..], ys[1..]) else IsSubsequence(xs, ys[1..]))
  }

  /** Grading is a filter: every kept document was graded exactly "yes",
      the kept documents appear in the input order, and a document is kept
      as often as it occurs in the input when its grade is "yes" and never
      otherwise (so "Yes", "no" or any other value drops it). */
  lemma {:induction false} FilterRelevantIsFilter(
    question: string, docs: seq<Document>, grader: (string, string) -> Json)
    requires FilterRelevant(question, docs, grader).Success?
    ensures var kept := FilterRelevant(question, docs, grader).value;
      && |kept| <= |docs|
      && (forall k :: 0 <= k < |kept| ==> GradeOf(question, kept[k], grader) == Success(Yes))
      && IsSubsequence(kept, docs)
      && (forall d :: multiset(kept)[d] ==
            if GradeOf(question, d, grader) == Success(Yes) then multiset(docs)[d] else 0)
    decreases |docs|
  {
    if docs != [] {
      var d0 := docs[0];
      var grade := GradeOf(question, d0, grader).value;
      var rest := FilterRelevant(question, docs[1..], grader).value;
      FilterRelevantIsFilter(question, docs[1..], grader);
      assert docs == [d0] + docs[1..];
      assert multiset(docs) == multiset{d0} + multiset(docs[1..]);
      var kept := FilterRelevant(question, docs, grader).value;
      if grade == Yes {
        assert kept == [d0] + rest;
        assert kept[1..] == rest;
        assert multiset(kept) == multiset{d0} + multiset(rest);
      } else {
        assert kept == rest;
        if rest != [] {
          assert rest[0] != d0 by {
            assert GradeOf(question, rest[0], grader) == Success(Yes);
          }
        }
      }
    }
  }

  /** Grading fails exactly when some document's grade cannot be read, and
      then with the error of the first such document. */
  lemma {:induction false} FilterRelevantFailure(
    question: string, docs: seq<Document>, grader: (string, string) -> Json)
    ensures FilterRelevant(question, docs, grader).Failure? <==>
      exists k :: 0 <= k < |docs| && GradeOf(question, docs[k], grader).Failure?
    ensures FilterRelevant(question, docs, grader).Failure? ==>
      exists k :: 0 <= k < |docs| &&
        (forall j :: 0 <= j < k ==> GradeOf(question, docs[j], grader).Success?) &&
        GradeOf(question, docs[k], grader).Failure? &&
        GradeOf(question, docs[k], grader).error == FilterRelevant(question, docs, grader).error
    decreases |docs|
  {
    if docs != [] {
      FilterRelevantFailure(question, docs[1..], grader);
      if GradeOf(question, docs[0], grader).Success? {
        if FilterRelevant(question, docs[1..], grader).Failure? {
          var k :| 0 <= k < |docs| - 1 &&
            (forall j :: 0 <= j < k ==> GradeOf(question, docs[1..][j], grader).Success?) &&
            GradeOf(question, docs[1..][k], grader).Failure? &&
            GradeOf(question, docs[1..][k], grader).error == FilterRelevant(question, docs[1..], grader).error;
          assert forall j :: 0 <= j < k + 1 ==> GradeOf(question, docs[j], grader).Success? by {
            forall j | 0 <= j < k + 1 ensures GradeOf(question, docs[j], grader).Success? {
              if j > 0 {
                assert docs[j] == docs[1..][j - 1];
              }
            }
          }
          assert docs[k + 1] == docs[1..][k];
        }
        if exists k :: 0 <= k < |docs| && GradeOf(question, docs[k], grader).Failure? {
          var k :| 0 <= k < |docs| && GradeOf(question, docs[k], grader).Failure?;
          assert docs[k] == docs[1..][k - 1];
        }
      }
    }
  }

  /** `_retrivel_grader` as a function of the state: the question unchanged
      and the documents filtered. */
  function GradeDocuments(state: GraphState, grader: (string, string) -> Json): (r: Result<GraphState, AgentError>)
    ensures state.question.None? ==> r == Failure(KeyError("question"))
    ensures state.question.Some? && state.documents.None? ==> r == Failure(KeyError("documents"))
    ensures state.question.Some? && state.documents.Some? ==>
      var graded := FilterRelevant(state.question.value, state.documents.value, grader);
      && (r.Success? <==> graded.Success?)
      && (r.Failure? ==> r.error == graded.error)
    ensures r.Success? ==>
      var q := state.question.value;
      var next := Merge(state, r.value);
      && next.question == state.question
      && next.generation == state.generation
      && next.documents.Some?
      && IsSubsequence(next.documents.value, state.documents.value)
      && (forall k :: 0 <= k < |next.documents.value| ==>
            GradeOf(q, next.documents.value[k], grader) == Success(Yes))
      && (forall d :: multiset(next.documents.value)[d] ==
            if GradeOf(q, d, grader) == Success(Yes) then multiset(state.documents.value)[d] else 0)
  {
    match state.question
    case None => Failure(KeyError("question"))
    case Some(q) =>
      match state.documents
      case None => Failure(KeyError("documents"))
      case Some(docs) =>
        match FilterRelevant(q, docs, grader)
        case Failure(e) => Failure(e)
        case Success(kept) =>
          FilterRelevantIsFilter(q, docs, grader);
          Success(GraphState(Some(q), Some(kept), None))
  }

  /** `_retrivel_grader`: grades each document in turn and appends the
      ones graded "yes" to `filtered_docs`. */
  method RetrievalGrader(state: GraphState, grader: (string, string) -> Json)
    returns (r: Result<GraphState, AgentError>)
    ensures r == GradeDocuments(state, grader)
  {
    if state.question.None? {
      return Failure(KeyError("question"));
    }
    var question := state.question.value;
    if state.documents.None? {
      return Failure(KeyError("documents"));
    }
    var documents := state.documents.value;
    var filteredDocs: seq<Document> := [];
    var i := 0;
    while i < |documents|
      invariant 0 <= i <= |documents|
      invariant FilterRelevant(question, documents[..i], grader) == Success(filteredDocs)
    {
      var doc := documents[i];
      var score := grader(question, doc.pageContent);
      var grade := Subscript(score, "score");
      FilterRelevantAppend(question, documents[..i], [doc], grader);
      assert documents[..i + 1] == documents[..i] + [doc];
      assert [doc][0] == doc && [doc][1..] == [];
      assert grade == GradeOf(question, doc, grader);
      if grade.Failure? {
        FilterRelevantAppend(question, documents[..i + 1], documents[i + 1..], grader);
        assert documents == documents[..i + 1] + documents[i + 1..];
        return Failure(grade.error);
      }
      FilterRelevantSingle(question, doc, grader);
      if grade.value == Yes {
        filteredDocs := filteredDocs + [doc];
      } else {
        assert filteredDocs + [] == filteredDocs;
      }
      i := i + 1;
    }
    assert documents[..i] == documents;
    return Success(GraphState(Some(question), Some(filteredDocs), None));
  }

  // ---------------------------------------------------------------------
  // generate

  /** `_rag_qa`: the question and documents unchanged, and the generator's
      answer for them as the generation. */
  function RagQa(state: GraphState, generate: (string, seq<Document>) -> string): (r: Result<GraphState, AgentError>)
    ensures state.question.None? ==> r == Failure(KeyError("question"))
    ensures state.question.Some? && state.documents.None? ==> r == Failure(KeyError("documents"))
    ensures r.Success? <==> state.question.Some? && state.documents.Some?
    ensures r.Success? ==>
      var next := Merge(state, r.value);
      && next.question == state.question
      && next.documents == state.documents
      && next.generation == Some(generate(state.question.value, state.documents.value))
  {
    match state.question
    case None => Failure(KeyError("question"))
    case Some(q) =>
      match state.documents
      case None => Failure(KeyError("documents"))
      case Some(docs) => Success(GraphState(Some(q), Some(docs), Some(generate(q, docs))))
  }

  // ---------------------------------------------------------------------
  // evaluate

  /** The answer that replaces a generation the answer grader rejects. */
  const FallbackAnswer: string :=
    " Sorry I don't have enough context for the question asked. \n \n" +
    "Cannot provide a reliable answer at the movement please add more context. \n \n" +
    "I can answers questions about store procedures, policies and other related topics. \n"

  /** `_evaluate_response`: a quality gate, not a retry. The question and
      documents pass through; the generation passes through when the
      answer grader says "yes" and is replaced by the fallback otherwise. */
  function EvaluateResponse(state: GraphState, gradeAnswer: (string, string) -> Json)
    : (r: Result<GraphState, AgentError>)
    ensures state.question.None? ==> r == Failure(KeyError("question"))
    ensures state.question.Some? && state.documents.None? ==> r == Failure(KeyError("documents"))
    ensures state.question.Some? && state.documents.Some? && state.generation.None? ==>
      r == Failure(KeyError("generation"))
    ensures state.question.Some? && state.documents.Some? && state.generation.Some? ==>
      var grade := Subscript(gradeAnswer(state.question.value, state.generation.value), "score");
      grade.Failure? ==> r == Failure(grade.error)
    ensures r.Success? <==>
      && state.question.Some? && state.documents.Some? && state.generation.Some?
      && Subscript(gradeAnswer(state.question.value, state.generation.value), "score").Success?
    ensures r.Success? ==>
      var grade := Subscript(gradeAnswer(state.question.value, state.generation.value), "score").value;
      && r.value.question == state.question
      && r.value.documents == state.documents
      && (grade == Yes ==> r.value.generation == state.generation)
      && (grade != Yes ==> r.value.generation == Some(FallbackAnswer))
  {
    match state.question
    case None => Failure(KeyError("question"))
    case Some(q) =>
      match state.documents
      case None => Failure(KeyError("documents"))
      case Some(docs) =>
        match state.generation
        case None => Failure(KeyError("generation"))
        case Some(generation) =>
          match Subscript(gradeAnswer(q, generation), "score")
          case Failure(e) => Failure(e)
          case Success(grade) =>
            if grade == Yes then Success(GraphState(Some(q), Some(docs), Some(generation)))
            else Success(GraphState(Some(q), Some(docs), Some(FallbackAnswer)))
  }

  // ---------------------------------------------------------------------
  // The graph

  /** START, END, or a registered node by name. */
  datatype Endpoint = Start | End | Node(name: string)

  /** The bound method a node name is registered with. */
  datatype Step = RetrieveStep | GradeStep | GenerateStep | EvaluateStep

  /** A `StateGraph` under construction: registered nodes and the edges in
      the order they were added. */
  datatype StateGraph = StateGraph(nodes: map<string, Step>, edges: seq<(Endpoint, Endpoint)>)

  /** The result of `workflow.compile()`. */
  datatype CompiledGraph = CompiledGraph(graph: StateGraph)

  function AddNode(g: StateGraph, name: string, step: Step): StateGraph {
    g.(nodes := g.nodes[name := step])
  }

  function AddEdge(g: StateGraph, from: Endpoint, to: Endpoint): StateGraph {
    g.(edges := g.edges + [(from, to)])
  }

  function Compile(g: StateGraph): CompiledGraph {
    CompiledGraph(g)
  }

  /** The graph `_create_workflow` builds, call for call. */
  function DefaultWorkflow(): StateGraph {
    var g := StateGraph(map[], []);
    var g := AddNode(g, "grade_docs", GradeStep);
    var g := AddNode(g, "retrieve", RetrieveStep);
    var g := AddNode(g, "generate", GenerateStep);
    var g := AddNode(g, "evaluate", EvaluateStep);
    var g := AddEdge(g, Start, Node("retrieve"));
    var g := AddEdge(g, Node("retrieve"), Node("grade_docs"));
    var g := AddEdge(g, Node("grade_docs"), Node("generate"));
    AddEdge(g, Node("generate"), End)
  }

  /** The target of the first edge leaving `at`. */
  function Successor(edges: seq<(Endpoint, Endpoint)>, at: Endpoint): Option<Endpoint> {
    if edges == [] then None
    else if edges[0].0 == at then Some(edges[0].1)
    else Successor(edges[1..], at)
  }

  /** A successor is the target of an edge that leaves `at`, and there is
      none exactly when no edge leaves `at`. */
  lemma {:induction false} SuccessorIsEdge(edges: seq<(Endpoint, Endpoint)>, at: Endpoint)
    ensures Successor(edges, at).Some? ==>
      exists k :: 0 <= k < |edges| && edges[k] == (at, Successor(edges, at).value)
    ensures Successor(edges, at).None? <==> forall k :: 0 <= k < |edges| ==> edges[k].0 != at
  {
    if edges != [] && edges[0].0 != at {
      SuccessorIsEdge(edges[1..], at);
      if Successor(edges, at).Some? {
        var k :| 0 <= k < |edges| - 1 && edges[1..][k] == (at, Successor(edges, at).value);
        assert edges[k + 1] == (at, Successor(edges, at).value);
      }
      if Successor(edges, at).None? {
        forall k | 0 <= k < |edges| ensures edges[k].0 != at {
          if k > 0 {
            assert edges[k] == edges[1..][k - 1];
          }
        }
      }
    }
  }

  /** The edges of the built graph, in the order they are added. */
  const DefaultEdges: seq<(Endpoint, Endpoint)> :=
    [(Start, Node("retrieve")), (Node("retrieve"), Node("grade_docs")),
     (Node("grade_docs"), Node("generate")), (Node("generate"), End)]

  /** Where each endpoint of the built graph leads. */
  lemma DefaultWorkflowEdges()
    ensures DefaultWorkflow().edges == DefaultEdges
  {
  }

  lemma DefaultSuccessors()
    ensures Successor(DefaultEdges, Start) == Some(Node("retrieve"))
    ensures Successor(DefaultEdges, Node("retrieve")) == Some(Node("grade_docs"))
    ensures Successor(DefaultEdges, Node("grade_docs")) == Some(Node("generate"))
    ensures Successor(DefaultEdges, Node("generate")) == Some(End)
  {
    var e1 := DefaultEdges[1..];
    var e2 := e1[1..];
    var e3 := e2[1..];
    assert e1 == [(Node("retrieve"), Node("grade_docs")), (Node("grade_docs"), Node("generate")), (Node("generate"), End)];
    assert e2 == [(Node("grade_docs"), Node("generate")), (Node("generate"), End)];
    assert e3 == [(Node("generate"), End)];
    assert Successor(e3, Node("generate")) == Some(End);
    assert Successor(e2, Node("grade_docs")) == Some(Node("generate"));
    assert Successor(e2, Node("generate")) == Some(End);
    assert Successor(e1, Node("generate")) == Some(End);
    assert Successor(e1, Node("grade_docs")) == Some(Node("generate"));
  }

  /** The endpoints a run visits from `at`, following the first outgoing
      edge at each step, for at most `fuel` steps. */
  function Path(edges: seq<(Endpoint, Endpoint)>, at: Endpoint, fuel: nat): seq<Endpoint>
    decreases fuel
  {
    if fuel == 0 || at == End then [at]
    else
      match Successor(edges, at)
      case None => [at]
      case Some(next) => [at] + Path(edges, next, fuel - 1)
  }

  /** A node that no edge enters is never on a path from any other
      endpoint. */
  lemma {:induction false} UnenteredNodeUnreachable(
    edges: seq<(Endpoint, Endpoint)>, at: Endpoint, fuel: nat, name: string)
    requires forall k :: 0 <= k < |edges| ==> edges[k].1 != Node(name)
    requires at != Node(name)
    ensures Node(name) !in Path(edges, at, fuel)
    decreases fuel
  {
    if fuel > 0 && at != End {
      match Successor(edges, at)
      case None =>
      case Some(next) =>
        SuccessorIsEdge(edges, at);
        UnenteredNodeUnreachable(edges, next, fuel - 1, name);
    }
  }

  /** LangGraph's default recursion limit: the most steps one run takes. */
  const RecursionLimit: nat := 25

  /** Runs one node on the state and returns the keys it sets. */
  function RunStep(step: Step, state: GraphState, o: Oracles): Result<GraphState, AgentError> {
    match step
    case RetrieveStep => RetrieveDocs(state, o.retrieve)
    case GradeStep => GradeDocuments(state, o.gradeDocument)
    case GenerateStep => RagQa(state, o.generate)
    case EvaluateStep => EvaluateResponse(state, o.gradeAnswer)
  }

  /** Executes the graph from `at`: run the node, merge its update into the
      state, move along the first outgoing edge; END or a node without an
      outgoing edge finishes the run. */
  function Run(g: StateGraph, at: Endpoint, state: GraphState, o: Oracles, fuel: nat)
    : Result<GraphState, AgentError>
    decreases fuel
  {
    match at
    case End => Success(state)
    // LangGraph refuses an edge into START, so a run never arrives there;
    // the case is here only because the match must cover every endpoint.
    case Start => Success(state)
    case Node(name) =>
      if fuel == 0 then Failure(GraphRecursionError)
      else if name !in g.nodes then Failure(UnknownNode(name))
      else
        match RunStep(g.nodes[name], state, o)
        case Failure(e) => Failure(e)
        case Success(update) =>
          var next := Merge(state, update);
          match Successor(g.edges, Node(name))
          case None => Success(next)
          case Some(to) => Run(g, to, next, o, fuel - 1)
  }

  /** `agent.invoke(input)`: start at the target of START's edge. */
  function Invoke(c: CompiledGraph, input: GraphState, o: Oracles): Result<GraphState, AgentError> {
    match Successor(c.graph.edges, Start)
    case None => Success(input)
    case Some(first) => Run(c.graph, first, input, o, RecursionLimit)
  }

  /** The built graph registers four nodes, `evaluate` among them. */
  lemma DefaultWorkflowNodes()
    ensures DefaultWorkflow().nodes ==
      map["grade_docs" := GradeStep, "retrieve" := RetrieveStep,
          "generate" := GenerateStep, "evaluate" := EvaluateStep]
  {
  }

  /** The built graph's only path is START -> retrieve -> grade_docs ->
      generate -> END. */
  lemma DefaultWorkflowPath()
    ensures Path(DefaultWorkflow().edges, Start, RecursionLimit) ==
      [Start, Node("retrieve"), Node("grade_docs"), Node("generate"), End]
  {
    DefaultWorkflowEdges();
    DefaultSuccessors();
    var edges := DefaultEdges;
    assert Path(edges, End, 21) == [End];
    assert Path(edges, Node("generate"), 22) == [Node("generate")] + Path(edges, End, 21);
    assert Path(edges, Node("grade_docs"), 23) == [Node("grade_docs")] + Path(edges, Node("generate"), 22);
    assert Path(edges, Node("retrieve"), 24) == [Node("retrieve")] + Path(edges, Node("grade_docs"), 23);
    assert Path(edges, Start, 25) == [Start] + Path(edges, Node("retrieve"), 24);
  }

  /** No edge of the built graph enters `evaluate`, so no run reaches it,
      however many steps it is allowed. */
  lemma EvaluateUnreachable(fuel: nat)
    ensures Node("evaluate") !in Path(DefaultWorkflow().edges, Start, fuel)
  {
    DefaultWorkflowEdges();
    assert forall k :: 0 <= k < |DefaultEdges| ==> DefaultEdges[k].1 != Node("evaluate");
    UnenteredNodeUnreachable(DefaultEdges, Start, fuel, "evaluate");
  }

  /** One turn of the built agent, written out without the graph: look the
      question up, keep the documents graded "yes", answer from them. The
      answer grader is never consulted. */
  function Turn(input: GraphState, o: Oracles): (r: Result<GraphState, AgentError>)
    ensures input.question.None? ==> r == Failure(KeyError("question"))
    ensures input.question.Some? ==>
      var graded := FilterRelevant(input.question.value, o.retrieve(input.question.value), o.gradeDocument);
      && (r.Success? <==> graded.Success?)
      && (r.Failure? ==> r.error == graded.error)
    ensures r.Success? ==>
      var q := input.question.value;
      && r.value.question == input.question
      && r.value.documents.Some?
      && IsSubsequence(r.value.documents.value, o.retrieve(q))
      && |r.value.documents.value| <= |o.retrieve(q)|
      && (forall k :: 0 <= k < |r.value.documents.value| ==>
            GradeOf(q, r.value.documents.value[k], o.gradeDocument) == Success(Yes))
      && (forall d :: multiset(r.value.documents.value)[d] ==
            if GradeOf(q, d, o.gradeDocument) == Success(Yes) then multiset(o.retrieve(q))[d] else 0)
      && r.value.generation == Some(o.generate(q, r.value.documents.value))
  {
    match input.question
    case None => Failure(KeyError("question"))
    case Some(q) =>
      var retrieved := o.retrieve(q);
      match FilterRelevant(q, retrieved, o.gradeDocument)
      case Failure(e) => Failure(e)
      case Success(kept) =>
        FilterRelevantIsFilter(q, retrieved, o.gradeDocument);
        Success(GraphState(Some(q), Some(kept), Some(o.generate(q, kept))))
  }

  /** Running the compiled default graph is exactly one turn. */
  lemma InvokeDefaultWorkflow(input: GraphState, o: Oracles)
    ensures Invoke(Compile(DefaultWorkflow()), input, o) == Turn(input, o)
  {
    var g := DefaultWorkflow();
    DefaultWorkflowEdges();
    DefaultSuccessors();
    assert g.nodes["retrieve"] == RetrieveStep;
    assert g.nodes["grade_docs"] == GradeStep;
    assert g.nodes["generate"] == GenerateStep;
    match input.question
    case None =>
    case Some(q) =>
      var s1 := Merge(input, GraphState(Some(q), Some(o.retrieve(q)), None));
      assert Run(g, Node("retrieve"), input, o, 25) == Run(g, Node("grade_docs"), s1, o, 24);
      match FilterRelevant(q, o.retrieve(q), o.gradeDocument)
      case Failure(e) =>
      case Success(kept) =>
        var s2 := Merge(s1, GraphState(Some(q), Some(kept), None));
        assert Run(g, Node("grade_docs"), s1, o, 24) == Run(g, Node("generate"), s2, o, 23);
        assert Run(g, Node("generate"), s2, o, 23) ==
          Success(GraphState(Some(q), Some(kept), Some(o.generate(q, kept))));
  }

  // ---------------------------------------------------------------------
  // ChatAgent

  /** The agent object: `workflow` and `agent` are None until `build`. */
  class ChatAgent {
    var messages: seq<string>
    const oracles: Oracles
    var workflow: Option<StateGraph>
    var agent: Option<CompiledGraph>

    constructor (oracles: Oracles)
      ensures this.oracles == oracles
      ensures messages == [] && workflow == None && agent == None
    {
      this.messages := [];
      this.oracles := oracles;
      this.workflow := None;
      this.agent := None;
    }

    /** `build`. */
    method Build()
      modifies this
      ensures workflow == Some(DefaultWorkflow())
      ensures agent == Some(Compile(DefaultWorkflow()))
      ensures messages == old(messages)
    {
      CreateWorkflow();
    }

    /** `_create_workflow`: registers the nodes and edges one call at a
      time on `self.workflow`, then compiles it into `self.agent`. */
    method CreateWorkflow()
      modifies this
      ensures workflow == Some(DefaultWorkflow())
      ensures agent == Some(Compile(DefaultWorkflow()))
      ensures messages == old(messages)
    {
      workflow := Some(StateGraph(map[], []));
      workflow := Some(AddNode(workflow.value, "grade_docs", GradeStep));
      workflow := Some(AddNode(workflow.value, "retrieve", RetrieveStep));
      workflow := Some(AddNode(workflow.value, "generate", GenerateStep));
      workflow := Some(AddNode(workflow.value, "evaluate", EvaluateStep));
      workflow := Some(AddEdge(workflow.value, Start, Node("retrieve")));
      workflow := Some(AddEdge(workflow.value, Node("retrieve"), Node("grade_docs")));
      workflow := Some(AddEdge(workflow.value, Node("grade_docs"), Node("generate")));
      workflow := Some(AddEdge(workflow.value, Node("generate"), End));
      agent := Some(Compile(workflow.value));
    }

    /** `chat`: hands its argument to the compiled graph; before `build`
      there is no graph and the call fails. */
    method Chat(input: GraphState) returns (r: Result<GraphState, AgentError>)
      ensures agent.None? ==> r == Failure(AttributeError)
      ensures agent.Some? ==> r == Invoke(agent.value, input, oracles)
    {
      if agent.None? {
        return Failure(AttributeError);
      }
      r := Invoke(agent.value, input, oracles);
    }
  }

  /** The module's script: construct, build, and chat with one question.
      The turn retrieves, filters and answers; the answer grader plays no
      part. */
  method BuildAndChat(question: string, oracles: Oracles) returns (r: Result<GraphState, AgentError>)
    ensures r == Turn(GraphState(Some(question), None, None), oracles)
  {
    var model := new ChatAgent(oracles);
    model.Build();
    r := model.Chat(GraphState(Some(question), None, None));
    InvokeDefaultWorkflow(GraphState(Some(question), None, None), oracles);
  }

  /** Chatting with an agent that was never built fails. */
  method ChatWithoutBuild(question: string, oracles: Oracles) returns (r: Result<GraphState, AgentError>)
    ensures r == Failure(AttributeError)
  {
    var model := new ChatAgent(oracles);
    r := model.Chat(GraphState(Some(question), None, None));
  }
}
