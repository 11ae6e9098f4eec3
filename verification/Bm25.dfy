/** The in-memory keyword index: an inverted table of term frequencies, the
    document lengths, and a lazily built query index.  The weighting and the
    query engine are given. */
module Bm25 {
  import opened Options
  import opened Ordering
  import opened Sums

  type Id = Bytes
  type Term = Bytes
  type Text = Bytes
  type Tokens = seq<Term>
  type Table = map<Term, map<Id, nat>>
  type Documents = map<Id, Tokens>

  // ---------------------------------------------------------- the inversion

  ghost function Terms(docs: Documents): set<Term> {
    set i, t | i in docs && t in docs[i] :: t
  }

  /** The frequency of the term in every document that holds it. */
  ghost function Postings(docs: Documents, t: Term): map<Id, nat> {
    map i | i in docs && t in docs[i] :: multiset(docs[i])[t]
  }

  ghost function Inversion(docs: Documents): Table {
    map t | t in Terms(docs) :: Postings(docs, t)
  }

  ghost function Lengths(docs: Documents): map<Id, nat> {
    map i | i in docs :: |docs[i]|
  }

  lemma TermsHavePostings(docs: Documents, t: Term)
    ensures t in Terms(docs) <==> Postings(docs, t) != map[]
  {
    if t in Terms(docs) {
      var i :| i in docs && t in docs[i];
      assert i in Postings(docs, t);
    }
    if Postings(docs, t) != map[] {
      var i :| i in Postings(docs, t);
      assert i in docs && t in docs[i];
    }
  }

  /** No posting list is empty and no frequency is zero. */
  lemma NoEmptyPostingList(docs: Documents, t: Term)
    requires t in Inversion(docs)
    ensures Inversion(docs)[t] != map[]
    ensures forall i :: i in Inversion(docs)[t] ==> i in docs && Inversion(docs)[t][i] > 0
  {
    TermsHavePostings(docs, t);
  }

  // -------------------------------------------------------- table updates

  /** Drop a document from every posting list, and the lists left empty. */
  function Without(table: Table, id: Id): Table {
    map t | t in table && table[t] - {id} != map[] :: table[t] - {id}
  }

  lemma PostingsWithout(docs: Documents, id: Id, t: Term)
    ensures Postings(docs - {id}, t) == Postings(docs, t) - {id}
  {
  }

  lemma WithoutInverts(docs: Documents, id: Id)
    ensures Without(Inversion(docs), id) == Inversion(docs - {id}) && Lengths(docs) - {id} == Lengths(docs - {id})
  {
    var a, b := Without(Inversion(docs), id), Inversion(docs - {id});
    forall t ensures (t in a <==> t in b) && (t in a ==> a[t] == b[t]) {
      PostingsWithout(docs, id, t);
      TermsHavePostings(docs, t);
      TermsHavePostings(docs - {id}, t);
    }
    assert a.Keys == b.Keys;
  }

  function PostingsOf(table: Table, t: Term): map<Id, nat> {
    if t in table then table[t] else map[]
  }

  /** The term's list with this document's frequency. */
  function Posted(table: Table, t: Term, id: Id, freq: nat): Table {
    table[t := PostingsOf(table, t)[id := freq]]
  }

  /** `after` is `before` with one posting for each of `terms`. */
  ghost predicate PostedAll(before: Table, after: Table, id: Id, freqs: map<Term, nat>, terms: set<Term>) {
    forall t :: PostedAt(before, after, id, freqs, terms, t)
  }

  predicate PostedAt(before: Table, after: Table, id: Id, freqs: map<Term, nat>, terms: set<Term>, t: Term) {
    && (t in after <==> t in before || t in terms)
    && PostingsOf(after, t) == if t in terms && t in freqs then PostingsOf(before, t)[id := freqs[t]] else PostingsOf(before, t)
  }

  ghost predicate Tallies(freqs: map<Term, nat>, tokens: Tokens) {
    && (forall t :: t in freqs <==> t in tokens)
    && forall t :: t in freqs ==> freqs[t] == multiset(tokens)[t]
  }

  lemma PostingsWith(docs: Documents, id: Id, tokens: Tokens, t: Term)
    requires id !in docs
    ensures Postings(docs[id := tokens], t) ==
            if t in tokens then Postings(docs, t)[id := multiset(tokens)[t]] else Postings(docs, t)
  {
  }

  lemma PostedInverts(docs: Documents, id: Id, tokens: Tokens, freqs: map<Term, nat>, after: Table)
    requires id !in docs && Tallies(freqs, tokens) && PostedAll(Inversion(docs), after, id, freqs, freqs.Keys)
    ensures after == Inversion(docs[id := tokens])
    ensures Lengths(docs)[id := |tokens|] == Lengths(docs[id := tokens])
  {
    var docs' := docs[id := tokens];
    forall t ensures (t in after <==> t in Terms(docs')) && PostingsOf(after, t) == Postings(docs', t) {
      assert PostedAt(Inversion(docs), after, id, freqs, freqs.Keys, t);
      TermPosted(docs, id, tokens, freqs, after, t);
    }
    TableByPostings(after, docs');
  }

  lemma TermPosted(docs: Documents, id: Id, tokens: Tokens, freqs: map<Term, nat>, after: Table, t: Term)
    requires id !in docs && Tallies(freqs, tokens) && PostedAt(Inversion(docs), after, id, freqs, freqs.Keys, t)
    ensures t in after <==> t in Terms(docs[id := tokens])
    ensures PostingsOf(after, t) == Postings(docs[id := tokens], t)
  {
    PostingsWith(docs, id, tokens, t);
    TermsWith(docs, id, tokens, t);
    PostingsInverted(docs, t);
  }

  lemma TermsWith(docs: Documents, id: Id, tokens: Tokens, t: Term)
    requires id !in docs
    ensures t in Terms(docs[id := tokens]) <==> t in Terms(docs) || t in tokens
  {
    var docs' := docs[id := tokens];
    if t in Terms(docs) {
      var i :| i in docs && t in docs[i];
      assert i in docs' && t in docs'[i];
    }
    if t in tokens { assert id in docs' && t in docs'[id]; }
  }

  lemma PostingsInverted(docs: Documents, t: Term)
    ensures PostingsOf(Inversion(docs), t) == Postings(docs, t)
  {
    TermsHavePostings(docs, t);
  }

  lemma TableByPostings(table: Table, docs: Documents)
    requires forall t :: (t in table <==> t in Terms(docs)) && PostingsOf(table, t) == Postings(docs, t)
    ensures table == Inversion(docs)
  {
    assert table.Keys == Inversion(docs).Keys;
    forall t | t in table ensures table[t] == Inversion(docs)[t] { assert PostingsOf(table, t) == Postings(docs, t); }
  }

  // ------------------------------------------------------------- histories

  /** The documents after indexing the items in order: a later text replaces an
      earlier one. */
  function IndexAll(docs: Documents, items: seq<(Id, Text)>, tokenize: Text -> Tokens): Documents
    decreases items
  {
    if items == [] then docs
    else IndexAll(docs[items[0].0 := tokenize(items[0].1)], items[1..], tokenize)
  }

  // ------------------------------------------------------------- the index

  /** The weighting build and the query over what it built. */
  datatype Engine<!I> = Engine(
    tokenize: Text -> Tokens,
    build: (Table, map<Id, nat>) -> I,
    query: (I, nat, Tokens) -> seq<(Id, nat)>)

  /** The answer of an index built from these documents alone. */
  ghost function FreshTopK<I(!new)>(e: Engine<I>, docs: Documents, k: nat, tokens: Tokens): seq<(Id, nat)> {
    if k == 0 || tokens == [] || docs == map[] then []
    else e.query(e.build(Inversion(docs), Lengths(docs)), k, tokens)
  }

  class BM25Index<I(!new)> {
    const engine: Engine<I>
    var termFreqs: Table
    var docLengths: map<Id, nat>
    var cached: Option<I>
    ghost var docs: Documents

    ghost predicate Tabulated()
      reads this
    {
      termFreqs == Inversion(docs) && docLengths == Lengths(docs)
    }

    /** The tables are the inversion of the documents, and a cached index is the
        one the current tables build. */
    ghost predicate Valid()
      reads this
    {
      Tabulated() && (cached.Some? ==> cached.value == engine.build(termFreqs, docLengths))
    }

    constructor (engine: Engine<I>)
      ensures Valid() && docs == map[] && cached == None && this.engine == engine
    {
      this.engine := engine;
      termFreqs, docLengths, cached := map[], map[], None;
      docs := map[];
    }

    method IndexDocuments(items: seq<(Id, Text)>)
      requires Valid()
      modifies this
      ensures Valid() && cached == None && docs == IndexAll(old(docs), items, engine.tokenize)
    {
      for k := 0 to |items|
        invariant Tabulated() && IndexAll(docs, items[k..], engine.tokenize) == IndexAll(old(docs), items, engine.tokenize)
      {
        assert items[k..][0] == items[k] && items[k..][1..] == items[k + 1..];
        IndexOne(items[k].0, engine.tokenize(items[k].1));
      }
      assert items[|items|..] == [];
      cached := None;
    }

    method IndexOne(id: Id, tokens: Tokens)
      requires Tabulated()
      modifies this`termFreqs, this`docLengths, this`docs
      ensures Tabulated() && docs == old(docs)[id := tokens]
    {
      RemoveMem(id);
      var freqs := Tally(tokens);
      var after := Post(termFreqs, id, freqs);
      PostedInverts(docs, id, tokens, freqs, after);
      docLengths := docLengths[id := |tokens|];
      termFreqs := after;
      docs := docs[id := tokens];
      assert docs == old(docs)[id := tokens];
    }

    method Remove(id: Id)
      requires Valid()
      modifies this
      ensures Valid() && cached == None && docs == old(docs) - {id}
    {
      RemoveMem(id);
      cached := None;
    }

    method RemoveMem(id: Id)
      requires Tabulated()
      modifies this`termFreqs, this`docLengths, this`docs
      ensures Tabulated() && docs == old(docs) - {id}
    {
      docLengths := docLengths - {id};
      termFreqs := DropDocument(termFreqs, id);
      WithoutInverts(docs, id);
      docs := docs - {id};
    }

    /** Whether or not an index is cached, the answer is that of an index freshly
        built from the surviving documents. */
    method TopK(k: nat, tokens: Tokens) returns (hits: seq<(Id, nat)>)
      requires Valid()
      modifies this`cached
      ensures Valid() && hits == FreshTopK(engine, docs, k, tokens)
    {
      assert docLengths == map[] <==> docs == map[] by { assert docLengths.Keys == docs.Keys; }
      if k == 0 || |tokens| == 0 || |docLengths| == 0 { return []; }
      if cached.None? {
        cached := Some(engine.build(termFreqs, docLengths));
      }
      hits := engine.query(cached.value, k, tokens);
    }
  }

  /** The frequency of every token. */
  method Tally(tokens: Tokens) returns (freqs: map<Term, nat>)
    ensures Tallies(freqs, tokens)
  {
    freqs := map[];
    for k := 0 to |tokens|
      invariant Tallies(freqs, tokens[..k])
    {
      var t := tokens[k];
      assert tokens[..k + 1] == tokens[..k] + [t];
      freqs := freqs[t := (if t in freqs then freqs[t] else 0) + 1];
    }
    assert tokens[..|tokens|] == tokens;
  }

  /** One posting per distinct term, in whatever order the map yields them. */
  method Post(table: Table, id: Id, freqs: map<Term, nat>) returns (after: Table)
    ensures PostedAll(table, after, id, freqs, freqs.Keys)
  {
    after := table;
    var done: set<Term> := {};
    assert forall x :: PostedAt(table, after, id, freqs, done, x);
    while done < freqs.Keys
      invariant done <= freqs.Keys && PostedAll(table, after, id, freqs, done)
      decreases freqs.Keys - done
    {
      var t :| t in freqs && t !in done;
      ghost var before := after;
      after := Posted(after, t, id, freqs[t]);
      forall x ensures PostedAt(table, after, id, freqs, done + {t}, x) {
        assert PostedAt(table, before, id, freqs, done, x);
      }
      done := done + {t};
    }
    assert done == freqs.Keys;
  }

  /** Visit every term, take the document out and drop a list left empty. */
  method DropDocument(table: Table, id: Id) returns (after: Table)
    ensures after == Without(table, id)
  {
    after := table;
    var left := table.Keys;
    while left != {}
      invariant left <= table.Keys
      invariant forall t :: t in after <==> t in table && (t in left || table[t] - {id} != map[])
      invariant forall t :: t in after ==> after[t] == if t in left then table[t] else table[t] - {id}
      decreases left
    {
      var t :| t in left;
      var list := after[t] - {id};
      after := if list == map[] then after - {t} else after[t := list];
      left := left - {t};
    }
  }

  // ------------------------------------------------------------- properties

  /** A document's frequencies sum to its stored length. */
  lemma {:induction false} FrequenciesSumToLength(tokens: Tokens)
    ensures SumOver(Elements(tokens), t => multiset(tokens)[t]) == |tokens|
  {
    if tokens == [] {
      assert Elements(tokens) == {};
    } else {
      var n := |tokens| - 1;
      var front, last := tokens[..n], tokens[n];
      FrequenciesSumToLength(front);
      assert tokens == front + [last];
      var f, g := (t: Term) => multiset(front)[t] as int, (t: Term) => multiset(tokens)[t] as int;
      assert multiset(tokens) == multiset(front) + multiset{last};
      assert Elements(tokens) == Elements(front) + {last};
      SumSame(Elements(front), t => multiset(front)[t], f);
      SumSame(Elements(tokens), t => multiset(tokens)[t], g);
      if last in front {
        assert Elements(tokens) == Elements(front);
        SumDiffersAt(Elements(front), f, g, last);
      } else {
        SumInsert(Elements(front), g, last);
        SumSame(Elements(front), f, g);
      }
    }
  }

  /** The column of a document in the inversion is its bag of tokens. */
  lemma ColumnSumsToLength(docs: Documents, id: Id)
    requires id in docs
    ensures SumOver(Elements(docs[id]), t => if t in Inversion(docs) && id in Inversion(docs)[t] then Inversion(docs)[t][id] else 0)
         == Lengths(docs)[id]
  {
    FrequenciesSumToLength(docs[id]);
    var f := (t: Term) => if t in Inversion(docs) && id in Inversion(docs)[t] then Inversion(docs)[t][id] as int else 0;
    forall t | t in Elements(docs[id]) ensures f(t) == multiset(docs[id])[t] {
      assert id in docs && t in docs[id];
      assert t in Terms(docs);
    }
    SumSame(Elements(docs[id]), f, t => multiset(docs[id])[t]);
    SumSame(Elements(docs[id]), f, t => if t in Inversion(docs) && id in Inversion(docs)[t] then Inversion(docs)[t][id] else 0);
  }

  datatype Write = Index(items: seq<(Id, Text)>) | Remove(id: Id)

  function Applied(docs: Documents, w: Write, tokenize: Text -> Tokens): Documents {
    match w
    case Index(items) => IndexAll(docs, items, tokenize)
    case Remove(id) => docs - {id}
  }

  function Run(docs: Documents, ws: seq<Write>, tokenize: Text -> Tokens): Documents {
    if ws == [] then docs else Applied(Run(docs, ws[..|ws| - 1], tokenize), ws[|ws| - 1], tokenize)
  }

  /** The text a batch leaves for a document: its last one. */
  function LastText(items: seq<(Id, Text)>, id: Id): Option<Text> {
    if items == [] then None
    else if items[|items| - 1].0 == id then Some(items[|items| - 1].1)
    else LastText(items[..|items| - 1], id)
  }

  /** The text that survives a run of writes. */
  function Surviving(ws: seq<Write>, id: Id): Option<Text> {
    if ws == [] then None else
      match ws[|ws| - 1]
      case Remove(x) => if x == id then None else Surviving(ws[..|ws| - 1], id)
      case Index(items) => if LastText(items, id).Some? then LastText(items, id) else Surviving(ws[..|ws| - 1], id)
  }

  lemma {:induction false} IndexAllSnoc(docs: Documents, items: seq<(Id, Text)>, last: (Id, Text), tokenize: Text -> Tokens)
    ensures IndexAll(docs, items + [last], tokenize) == IndexAll(docs, items, tokenize)[last.0 := tokenize(last.1)]
    decreases items
  {
    if items != [] {
      assert (items + [last])[1..] == items[1..] + [last];
      IndexAllSnoc(docs[items[0].0 := tokenize(items[0].1)], items[1..], last, tokenize);
    }
  }

  lemma {:induction false} IndexAllKeepsLast(docs: Documents, items: seq<(Id, Text)>, tokenize: Text -> Tokens, id: Id)
    ensures var after := IndexAll(docs, items, tokenize);
      match LastText(items, id)
      case Some(text) => id in after && after[id] == tokenize(text)
      case None => (id in after <==> id in docs) && (id in docs ==> after[id] == docs[id])
  {
    if items != [] {
      var n := |items| - 1;
      IndexAllKeepsLast(docs, items[..n], tokenize, id);
      IndexAllSnoc(docs, items[..n], items[n], tokenize);
      assert items == items[..n] + [items[n]];
    }
  }

  /** After any run of writes a document holds the tokens of its latest text, or
      is absent when it was removed since. */
  lemma {:induction false} LatestTextSurvives(ws: seq<Write>, tokenize: Text -> Tokens, id: Id)
    ensures var docs := Run(map[], ws, tokenize);
      && (id in docs <==> Surviving(ws, id).Some?)
      && (id in docs ==> docs[id] == tokenize(Surviving(ws, id).value))
  {
    if ws != [] {
      var n := |ws| - 1;
      LatestTextSurvives(ws[..n], tokenize, id);
      match ws[n]
      case Remove(_) =>
      case Index(items) => IndexAllKeepsLast(Run(map[], ws[..n], tokenize), items, tokenize, id);
    }
  }

  /** So any two histories that leave the same texts answer every query alike; in
      particular a history and one batch of its surviving texts, in any order. */
  lemma SameSurvivorsSameAnswers<I(!new)>(e: Engine<I>, ws: seq<Write>, ws': seq<Write>, k: nat, tokens: Tokens)
    requires forall id :: Surviving(ws, id) == Surviving(ws', id)
    ensures FreshTopK(e, Run(map[], ws, e.tokenize), k, tokens) == FreshTopK(e, Run(map[], ws', e.tokenize), k, tokens)
  {
    var a, b := Run(map[], ws, e.tokenize), Run(map[], ws', e.tokenize);
    forall id ensures (id in a <==> id in b) && (id in a ==> a[id] == b[id]) {
      LatestTextSurvives(ws, e.tokenize, id);
      LatestTextSurvives(ws', e.tokenize, id);
    }
    assert a.Keys == b.Keys;
    assert a == b;
  }
}
