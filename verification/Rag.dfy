/**
 Corrective retrieval in its two forms, a bounded loop and a compiled graph of nodes. Retriever,
 grader, rewriter and generator may all keep state: `W` is that state, threaded through each call,
 so equal final states mean the same calls in the same order.
 */
module Rag {

  datatype Document = Document(id: string, text: string, source: string, score: real)

  datatype Services<!W> = Services(
    retrieve: (W, string) -> (W, seq<Document>),
    grade: (W, string, Document) -> (W, bool),
    rewrite: (W, string, nat) -> (W, string),
    generate: (W, string, seq<Document>) -> (W, string))

  const REFUSAL := "Insufficient evidence to answer from the approved knowledge base."
  const GROUNDED := "grounded"
  const INSUFFICIENT := "insufficient_evidence"

  datatype Result = Result(answer: string, documents: seq<Document>, attempts: nat, status: string)

  /** The documents that pass, graded one after another. */
  function Graded<W>(sv: Services<W>, w: W, query: string, docs: seq<Document>): (W, seq<Document>) {
    if docs == [] then (w, [])
    else
      var (w1, pass) := sv.grade(w, query, docs[0]);
      var (w2, rest) := Graded(sv, w1, query, docs[1..]);
      (w2, (if pass then [docs[0]] else []) + rest)
  }

  function Search<W>(sv: Services<W>, w: W, query: string): (W, seq<Document>) {
    var (w1, docs) := sv.retrieve(w, query);
    Graded(sv, w1, query, docs)
  }

  /** The loop of `invoke` from a given attempt on. */
  function Loop<W>(sv: Services<W>, maximum: nat, question: string, w: W, query: string, attempt: nat): (W, Result)
    requires 1 <= attempt <= maximum
    decreases maximum - attempt
  {
    var (w1, docs) := Search(sv, w, query);
    if docs != [] then
      var (w2, answer) := sv.generate(w1, question, docs);
      (w2, Result(answer, docs, attempt, GROUNDED))
    else if attempt < maximum then
      var (w2, next) := sv.rewrite(w1, question, attempt);
      Loop(sv, maximum, question, w2, next, attempt + 1)
    else (w1, Result(REFUSAL, [], maximum, INSUFFICIENT))
  }

  /** The comprehension over the retrieved documents. */
  method SearchDocuments<W>(sv: Services<W>, w: W, query: string) returns (w': W, kept: seq<Document>)
    ensures (w', kept) == Search(sv, w, query)
  {
    var (w1, docs) := sv.retrieve(w, query);
    w', kept := w1, [];
    ghost var all := Graded(sv, w1, query, docs);
    assert all == Search(sv, w, query);
    assert docs[0..] == docs;
    for i := 0 to |docs|
      invariant all.0 == Graded(sv, w', query, docs[i..]).0
      invariant all.1 == kept + Graded(sv, w', query, docs[i..]).1
    {
      var (next, pass) := sv.grade(w', query, docs[i]);
      assert docs[i..][1..] == docs[i + 1..];
      ghost var rest := Graded(sv, next, query, docs[i + 1..]).1;
      assert kept + ([docs[i]] + rest) == kept + [docs[i]] + rest && kept + ([] + rest) == kept + rest;
      w' := next;
      if pass {
        kept := kept + [docs[i]];
      }
    }
    assert docs[|docs|..] == [];
    assert Graded(sv, w', query, []) == (w', []);
    assert all.1 == kept;
    assert all.0 == w';
  }

  method Invoke<W>(sv: Services<W>, maximum: nat, question: string, w: W) returns (w': W, r: Result)
    requires maximum >= 1
    ensures (w', r) == Loop(sv, maximum, question, w, question, 1)
  {
    var query := question;
    w' := w;
    for attempt := 1 to maximum + 1
      invariant attempt <= maximum ==> Loop(sv, maximum, question, w, question, 1)
                                       == Loop(sv, maximum, question, w', query, attempt)
      invariant attempt > maximum ==>
                  Loop(sv, maximum, question, w, question, 1) == (w', Result(REFUSAL, [], maximum, INSUFFICIENT))
    {
      var docs;
      w', docs := SearchDocuments(sv, w', query);
      if docs != [] {
        var (w2, answer) := sv.generate(w', question, docs);
        return w2, Result(answer, docs, attempt, GROUNDED);
      }
      if attempt < maximum {
        var (w2, next) := sv.rewrite(w', question, attempt);
        w', query := w2, next;
      }
    }
    r := Result(REFUSAL, [], maximum, INSUFFICIENT);
  }

  // ---- The compiled graph ---------------------------------------------------------------------------

  datatype Node = Retrieve | Rewrite | Generate | Refuse | End

  datatype State = State(question: string, query: string, attempts: nat, documents: seq<Document>, answer: string,
      status: string)

  function InitialState(question: string): State {
    State(question, "", 0, [], "", "")
  }

  function EffectiveQuery(s: State): string {
    if s.query == "" then s.question else s.query
  }

  function Route(s: State, maximum: nat): Node {
    if s.documents != [] then Generate else if s.attempts < maximum then Rewrite else Refuse
  }

  /** Running one node, and the node its edge leads to. */
  function NodeStep<W>(sv: Services<W>, maximum: nat, w: W, node: Node, s: State): (W, Node, State) {
    match node
    case Retrieve =>
      var (w1, docs) := Search(sv, w, EffectiveQuery(s));
      var s1 := s.(attempts := s.attempts + 1, query := EffectiveQuery(s), documents := docs);
      (w1, Route(s1, maximum), s1)
    case Rewrite =>
      var (w1, next) := sv.rewrite(w, s.question, s.attempts);
      (w1, Retrieve, s.(query := next))
    case Generate =>
      var (w1, answer) := sv.generate(w, s.question, s.documents);
      (w1, End, s.(answer := answer, status := GROUNDED))
    case Refuse => (w, End, s.(answer := REFUSAL, status := INSUFFICIENT))
    case End => (w, End, s)
  }

  /** The graph after n node steps. */
  function Graph<W>(sv: Services<W>, maximum: nat, w: W, node: Node, s: State, n: nat): (W, Node, State)
    decreases n
  {
    if n == 0 then (w, node, s)
    else
      var (w1, node1, s1) := NodeStep(sv, maximum, w, node, s);
      Graph(sv, maximum, w1, node1, s1, n - 1)
  }

  /** The queries the first n node steps send to the retriever. */
  ghost function GraphQueries<W>(sv: Services<W>, maximum: nat, w: W, node: Node, s: State, n: nat): seq<string>
    decreases n
  {
    if n == 0 then []
    else
      var (w1, node1, s1) := NodeStep(sv, maximum, w, node, s);
      (if node == Retrieve then [EffectiveQuery(s)] else []) + GraphQueries(sv, maximum, w1, node1, s1, n - 1)
  }

  ghost function LoopQueries<W>(sv: Services<W>, maximum: nat, question: string, w: W, query: string,
      attempt: nat): seq<string>
    requires 1 <= attempt <= maximum
    decreases maximum - attempt
  {
    var (w1, docs) := Search(sv, w, query);
    if docs == [] && attempt < maximum then
      var (w2, next) := sv.rewrite(w1, question, attempt);
      [query] + LoopQueries(sv, maximum, question, w2, next, attempt + 1)
    else [query]
  }

  /** The state the graph ends in when the loop would return `r`. */
  ghost predicate Agrees(s: State, r: Result) {
    s.answer == r.answer && s.documents == r.documents && s.attempts == r.attempts && s.status == r.status
  }

  lemma {:induction false} EndIsFinal<W>(sv: Services<W>, maximum: nat, w: W, s: State, n: nat)
    ensures Graph(sv, maximum, w, End, s, n) == (w, End, s) && GraphQueries(sv, maximum, w, End, s, n) == []
  {
    if n != 0 {
      EndIsFinal(sv, maximum, w, s, n - 1);
    }
  }

  /** Two node steps from the retrieve node. */
  lemma TwoSteps<W>(sv: Services<W>, maximum: nat, w: W, s: State, n: nat)
    requires n >= 2
    ensures var (w1, node1, s1) := NodeStep(sv, maximum, w, Retrieve, s);
            var (w2, node2, s2) := NodeStep(sv, maximum, w1, node1, s1);
            && Graph(sv, maximum, w, Retrieve, s, n) == Graph(sv, maximum, w2, node2, s2, n - 2)
            && GraphQueries(sv, maximum, w, Retrieve, s, n) == [EffectiveQuery(s)]
               + GraphQueries(sv, maximum, w2, node2, s2, n - 2)
  {
    var (w1, node1, s1) := NodeStep(sv, maximum, w, Retrieve, s);
    var (w2, node2, s2) := NodeStep(sv, maximum, w1, node1, s1);
    assert node1 != Retrieve;
    assert GraphQueries(sv, maximum, w1, node1, s1, n - 1) == GraphQueries(sv, maximum, w2, node2, s2, n - 2);
  }

  /** No empty query is left to come, or the question itself is empty. */
  ghost predicate Safe<W>(sv: Services<W>, maximum: nat, w: W, s: State)
    requires s.attempts < maximum
  {
    s.question == "" || "" !in LoopQueries(sv, maximum, s.question, w, EffectiveQuery(s), s.attempts + 1)
  }

  ghost predicate Simulated<W>(sv: Services<W>, maximum: nat, w: W, s: State)
    requires s.attempts < maximum
  {
    var n, a := 2 * (maximum - s.attempts), s.attempts + 1;
    var (w', node, s') := Graph(sv, maximum, w, Retrieve, s, n);
    var (u, r) := Loop(sv, maximum, s.question, w, EffectiveQuery(s), a);
    && node == End && w' == u && Agrees(s', r)
    && GraphQueries(sv, maximum, w, Retrieve, s, n) == LoopQueries(sv, maximum, s.question, w, EffectiveQuery(s), a)
  }

  /** `s2` in `w2` is where a fruitless attempt and its rewrite lead from `s` in `w`. */
  ghost predicate RewritesTo<W>(sv: Services<W>, maximum: nat, w: W, s: State, w2: W, s2: State) {
    && s.attempts + 1 < maximum && Search(sv, w, EffectiveQuery(s)).1 == []
    && sv.rewrite(Search(sv, w, EffectiveQuery(s)).0, s.question, s.attempts + 1) == (w2, s2.query)
    && s2 == s.(attempts := s.attempts + 1, documents := [], query := s2.query)
  }

  lemma LoopByRewrite<W>(sv: Services<W>, maximum: nat, w: W, s: State, w2: W, s2: State)
    requires RewritesTo(sv, maximum, w, s, w2, s2)
    ensures Loop(sv, maximum, s.question, w, EffectiveQuery(s), s.attempts + 1)
            == Loop(sv, maximum, s.question, w2, s2.query, s.attempts + 2)
    ensures LoopQueries(sv, maximum, s.question, w, EffectiveQuery(s), s.attempts + 1) ==
            [EffectiveQuery(s)] + LoopQueries(sv, maximum, s.question, w2, s2.query, s.attempts + 2)
    ensures LoopQueries(sv, maximum, s.question, w2, s2.query, s.attempts + 2)[0] == s2.query
  {
  }

  lemma GraphByRewrite<W>(sv: Services<W>, maximum: nat, w: W, s: State, w2: W, s2: State)
    requires RewritesTo(sv, maximum, w, s, w2, s2)
    ensures var n := 2 * (maximum - s.attempts);
            && Graph(sv, maximum, w, Retrieve, s, n) == Graph(sv, maximum, w2, Retrieve, s2, n - 2)
            && GraphQueries(sv, maximum, w, Retrieve, s, n) == [EffectiveQuery(s)]
               + GraphQueries(sv, maximum, w2, Retrieve, s2, n - 2)
  {
    var (w1, node1, s1) := NodeStep(sv, maximum, w, Retrieve, s);
    assert node1 == Rewrite && NodeStep(sv, maximum, w1, node1, s1) == (w2, Retrieve, s2);
    TwoSteps(sv, maximum, w, s, 2 * (maximum - s.attempts));
  }

  lemma SimulatedByRewrite<W>(sv: Services<W>, maximum: nat, w: W, s: State, w2: W, s2: State)
    requires RewritesTo(sv, maximum, w, s, w2, s2)
    ensures Safe(sv, maximum, w, s) ==> Safe(sv, maximum, w2, s2)
    ensures Safe(sv, maximum, w, s) && Simulated(sv, maximum, w2, s2) ==> Simulated(sv, maximum, w, s)
  {
    LoopByRewrite(sv, maximum, w, s, w2, s2);
    GraphByRewrite(sv, maximum, w, s, w2, s2);
    assert 2 * (maximum - s2.attempts) == 2 * (maximum - s.attempts) - 2;
  }

  /** From the retrieve node the graph does what is left of the loop, in two steps for each attempt left. */
  lemma {:induction false} Simulates<W>(sv: Services<W>, maximum: nat, w: W, s: State)
    requires s.attempts < maximum && Safe(sv, maximum, w, s)
    ensures Simulated(sv, maximum, w, s)
    decreases maximum - s.attempts
  {
    var (w1, node1, s1) := NodeStep(sv, maximum, w, Retrieve, s);
    var (w2, node2, s2) := NodeStep(sv, maximum, w1, node1, s1);
    if node1 == Rewrite {
      SimulatedByRewrite(sv, maximum, w, s, w2, s2);
      Simulates(sv, maximum, w2, s2);
    } else {
      TwoSteps(sv, maximum, w, s, 2 * (maximum - s.attempts));
      EndIsFinal(sv, maximum, w2, s2, 2 * (maximum - s.attempts) - 2);
    }
  }

  /**
   The graph equals the loop: from the empty initial state, within 2 * maximum node steps, it makes
   the same calls in the same order and ends with the same answer, documents, attempts and status,
   provided no rewrite that is used comes back empty.
   */
  lemma GraphEqualsLoop<W>(sv: Services<W>, maximum: nat, w: W, question: string)
    requires maximum >= 1
    requires question == "" || "" !in LoopQueries(sv, maximum, question, w, question, 1)
    ensures var (w', node, s') := Graph(sv, maximum, w, Retrieve, InitialState(question), 2 * maximum);
            var (u, r) := Loop(sv, maximum, question, w, question, 1);
            node == End && w' == u && Agrees(s', r)
    ensures GraphQueries(sv, maximum, w, Retrieve, InitialState(question), 2 * maximum)
            == LoopQueries(sv, maximum, question, w, question, 1)
  {
    Simulates(sv, maximum, w, InitialState(question));
  }

  /** A query that only comes after a rewrite. */
  lemma LaterQuery<W>(sv: Services<W>, maximum: nat, w: W, s: State, q: string) returns (w2: W, s2: State)
    requires s.attempts < maximum && q != EffectiveQuery(s)
    requires q in LoopQueries(sv, maximum, s.question, w, EffectiveQuery(s), s.attempts + 1)
    ensures RewritesTo(sv, maximum, w, s, w2, s2)
    ensures q in LoopQueries(sv, maximum, s.question, w2, s2.query, s.attempts + 2)
  {
    var (w1, next) := sv.rewrite(Search(sv, w, EffectiveQuery(s)).0, s.question, s.attempts + 1);
    w2, s2 := w1, s.(attempts := s.attempts + 1, documents := [], query := next);
  }

  lemma FirstQuery<W>(sv: Services<W>, maximum: nat, w: W, s: State, n: nat)
    requires n >= 1
    ensures GraphQueries(sv, maximum, w, Retrieve, s, n) != []
            && GraphQueries(sv, maximum, w, Retrieve, s, n)[0] == EffectiveQuery(s)
  {
  }

  lemma DifferBehind(q: string, a: seq<string>, b: seq<string>)
    requires a != b
    ensures [q] + a != [q] + b
  {
    assert ([q] + a)[1..] == a && ([q] + b)[1..] == b;
  }

  ghost predicate Diverges<W>(sv: Services<W>, maximum: nat, w: W, s: State)
    requires s.attempts < maximum
  {
    GraphQueries(sv, maximum, w, Retrieve, s, 2 * (maximum - s.attempts))
    != LoopQueries(sv, maximum, s.question, w, EffectiveQuery(s), s.attempts + 1)
  }

  lemma DivergesByRewrite<W>(sv: Services<W>, maximum: nat, w: W, s: State, w2: W, s2: State)
    requires RewritesTo(sv, maximum, w, s, w2, s2)
    requires GraphQueries(sv, maximum, w2, Retrieve, s2, 2 * (maximum - s.attempts) - 2)
             != LoopQueries(sv, maximum, s.question, w2, s2.query, s.attempts + 2)
    ensures Diverges(sv, maximum, w, s)
  {
    LoopByRewrite(sv, maximum, w, s, w2, s2);
    GraphByRewrite(sv, maximum, w, s, w2, s2);
    DifferBehind(EffectiveQuery(s), GraphQueries(sv, maximum, w2, Retrieve, s2, 2 * (maximum - s.attempts) - 2),
                 LoopQueries(sv, maximum, s.question, w2, s2.query, s.attempts + 2));
  }

  lemma EmptyRewriteParts<W>(sv: Services<W>, maximum: nat, w: W, s: State, w2: W, s2: State)
    requires RewritesTo(sv, maximum, w, s, w2, s2) && s2.query == "" && s.question != ""
    ensures GraphQueries(sv, maximum, w2, Retrieve, s2, 2 * (maximum - s.attempts) - 2)
            != LoopQueries(sv, maximum, s.question, w2, s2.query, s.attempts + 2)
  {
    FirstQuery(sv, maximum, w2, s2, 2 * (maximum - s.attempts) - 2);
    LoopByRewrite(sv, maximum, w, s, w2, s2);
  }

  /** The first empty rewrite is where they part: the loop searches for nothing, the graph for the question. */
  lemma {:induction false} EmptyRewriteDiverges<W>(sv: Services<W>, maximum: nat, w: W, s: State)
    requires s.attempts < maximum && s.question != ""
    requires "" in LoopQueries(sv, maximum, s.question, w, EffectiveQuery(s), s.attempts + 1)
    ensures Diverges(sv, maximum, w, s)
    decreases maximum - s.attempts
  {
    var w2, s2 := LaterQuery(sv, maximum, w, s, "");
    if s2.query == "" {
      EmptyRewriteParts(sv, maximum, w, s, w2, s2);
    } else {
      EmptyRewriteDiverges(sv, maximum, w2, s2);
      assert 2 * (maximum - s2.attempts) == 2 * (maximum - s.attempts) - 2;
    }
    DivergesByRewrite(sv, maximum, w, s, w2, s2);
  }

  /** Exactly when the two issue the same queries. */
  lemma SameQueriesIff<W>(sv: Services<W>, maximum: nat, w: W, question: string)
    requires maximum >= 1
    ensures GraphQueries(sv, maximum, w, Retrieve, InitialState(question), 2 * maximum)
            == LoopQueries(sv, maximum, question, w, question, 1)
            <==> question == "" || "" !in LoopQueries(sv, maximum, question, w, question, 1)
  {
    if question == "" || "" !in LoopQueries(sv, maximum, question, w, question, 1) {
      GraphEqualsLoop(sv, maximum, w, question);
    } else {
      EmptyRewriteDiverges(sv, maximum, w, InitialState(question));
    }
  }

  /** A rewriter that never returns an empty string always meets the condition. */
  lemma {:induction false} NonemptyRewritesSuffice<W(!new)>(sv: Services<W>, maximum: nat, w: W, question: string,
      query: string, attempt: nat)
    requires 1 <= attempt <= maximum && query != ""
    requires forall u: W, a: nat :: sv.rewrite(u, question, a).1 != ""
    ensures "" !in LoopQueries(sv, maximum, question, w, query, attempt)
    decreases maximum - attempt
  {
    var (w1, docs) := Search(sv, w, query);
    if docs == [] && attempt < maximum {
      var (w2, next) := sv.rewrite(w1, question, attempt);
      NonemptyRewritesSuffice(sv, maximum, w2, question, next, attempt + 1);
    }
  }

  /** At most `maximum` queries, and a refusal only after all of them found nothing. */
  lemma {:induction false} AttemptsAreBounded<W>(sv: Services<W>, maximum: nat, question: string, w: W, query: string,
      attempt: nat)
    requires 1 <= attempt <= maximum
    ensures var r := Loop(sv, maximum, question, w, query, attempt).1;
            && |LoopQueries(sv, maximum, question, w, query, attempt)| == r.attempts - attempt + 1
            && attempt <= r.attempts <= maximum
            && (r.status == GROUNDED <==> r.documents != [])
               && (r.documents == [] ==> r.attempts == maximum && r.answer == REFUSAL)
    decreases maximum - attempt
  {
    var (w1, docs) := Search(sv, w, query);
    if docs == [] && attempt < maximum {
      var (w2, next) := sv.rewrite(w1, question, attempt);
      AttemptsAreBounded(sv, maximum, question, w2, next, attempt + 1);
    }
  }
}
