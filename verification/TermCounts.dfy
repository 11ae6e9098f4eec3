/** The term-document count builder: encounter-order vocabulary, term frequency
    per document, document frequency per term. */
module TermCounts {
  import opened Ordering

  type Term = Bytes
  type Document = seq<Term>

  // ------------------------------------------------------------ vocabulary

  /** The terms in the order they were first met. */
  function Meet(order: seq<Term>, t: Term): seq<Term> {
    if t in order then order else order + [t]
  }

  function MeetAll(order: seq<Term>, terms: Document): seq<Term> {
    if terms == [] then order else Meet(MeetAll(order, terms[..|terms| - 1]), terms[|terms| - 1])
  }

  function EncounterOrder(docs: seq<Document>): seq<Term> {
    if docs == [] then [] else MeetAll(EncounterOrder(docs[..|docs| - 1]), docs[|docs| - 1])
  }

  /** The vocabulary numbers the terms 0..n in this order: a bijection. */
  ghost predicate Numbers(vocab: map<Term, nat>, order: seq<Term>) {
    && NoDuplicates(order) && |vocab| == |order|
    && (forall t :: t in vocab ==> t in order)
    && (forall i :: 0 <= i < |order| ==> order[i] in vocab && vocab[order[i]] == i)
  }

  /** A term met before keeps its index; a new one gets the next. */
  function Assign(vocab: map<Term, nat>, t: Term): map<Term, nat> {
    if t in vocab then vocab else vocab[t := |vocab|]
  }

  /** Give every term of a document its index. */
  function AssignAll(vocab: map<Term, nat>, terms: Document): map<Term, nat> {
    if terms == [] then vocab else Assign(AssignAll(vocab, terms[..|terms| - 1]), terms[|terms| - 1])
  }

  lemma {:induction false} AssignAllNumbers(vocab: map<Term, nat>, order: seq<Term>, terms: Document)
    requires Numbers(vocab, order)
    ensures Numbers(AssignAll(vocab, terms), MeetAll(order, terms))
  {
    if terms != [] {
      var n := |terms| - 1;
      AssignAllNumbers(vocab, order, terms[..n]);
      NumbersNext(AssignAll(vocab, terms[..n]), MeetAll(order, terms[..n]), terms[n]);
    }
  }

  lemma NumbersNext(vocab: map<Term, nat>, order: seq<Term>, t: Term)
    requires Numbers(vocab, order)
    ensures t in vocab <==> t in order
    ensures Numbers(Assign(vocab, t), Meet(order, t)) && t in Assign(vocab, t)
  {
    if t in order {
      var i :| 0 <= i < |order| && order[i] == t;
    }
  }

  lemma IndexOf(vocab: map<Term, nat>, order: seq<Term>, t: Term)
    requires Numbers(vocab, order) && t in vocab
    ensures vocab[t] < |order| && order[vocab[t]] == t
  {
    var i :| 0 <= i < |order| && order[i] == t;
  }

  /** The order, hence every index, of the terms already met never changes. */
  lemma {:induction false} MeetAllExtends(order: seq<Term>, terms: Document)
    ensures order <= MeetAll(order, terms)
    ensures forall t :: t in MeetAll(order, terms) <==> t in order || t in terms
  {
    if terms != [] {
      MeetAllExtends(order, terms[..|terms| - 1]);
      assert terms == terms[..|terms| - 1] + [terms[|terms| - 1]];
    }
  }

  lemma {:induction false} EncounterOrderTerms(docs: seq<Document>, t: Term)
    ensures t in EncounterOrder(docs) <==> DocumentFrequency(docs, t) > 0
  {
    if docs != [] {
      EncounterOrderTerms(docs[..|docs| - 1], t);
      MeetAllExtends(EncounterOrder(docs[..|docs| - 1]), docs[|docs| - 1]);
    }
  }

  /** All terms in the order they are read. */
  function Joined(docs: seq<Document>): seq<Term> {
    if docs == [] then [] else Joined(docs[..|docs| - 1]) + docs[|docs| - 1]
  }

  /** The first term turns up in the text before any of the second. */
  ghost predicate MetBefore(text: seq<Term>, t: Term, u: Term) {
    exists p :: 0 <= p < |text| && text[p] == t && u !in text[..p]
  }

  /** The order lists the terms of the text as they first turn up in it. */
  ghost predicate InOrderOfMeeting(order: seq<Term>, text: seq<Term>) {
    && (forall t :: t in order <==> t in text)
    && (forall i, j :: 0 <= i < j < |order| ==> MetBefore(text, order[i], order[j]))
  }

  lemma StillMetBefore(text: seq<Term>, more: seq<Term>, t: Term, u: Term)
    requires MetBefore(text, t, u)
    ensures MetBefore(text + more, t, u)
  {
    var p :| 0 <= p < |text| && text[p] == t && u !in text[..p];
    assert (text + more)[p] == t && (text + more)[..p] == text[..p];
  }

  lemma MeetNext(order: seq<Term>, text: seq<Term>, t: Term)
    requires InOrderOfMeeting(order, text)
    ensures InOrderOfMeeting(Meet(order, t), text + [t])
  {
    var order' := Meet(order, t);
    forall i, j | 0 <= i < j < |order'| ensures MetBefore(text + [t], order'[i], order'[j]) {
      if j < |order| {
        StillMetBefore(text, [t], order[i], order[j]);
      } else {
        assert order[i] in text && t !in text;
        var p :| 0 <= p < |text| && text[p] == order[i];
        assert (text + [t])[p] == order[i] && (text + [t])[..p] == text[..p];
      }
    }
  }

  lemma {:induction false} MeetAllInOrder(order: seq<Term>, text: seq<Term>, terms: Document)
    requires InOrderOfMeeting(order, text)
    ensures InOrderOfMeeting(MeetAll(order, terms), text + terms)
  {
    if terms == [] {
      assert text + [] == text;
    } else {
      var n := |terms| - 1;
      MeetAllInOrder(order, text, terms[..n]);
      MeetNext(MeetAll(order, terms[..n]), text + terms[..n], terms[n]);
      assert text + terms[..n] + [terms[n]] == text + terms;
    }
  }

  /** The vocabulary's order is that in which the terms first turn up in the
      documents read one after the other. */
  lemma {:induction false} EncounterOrderIsReadingOrder(docs: seq<Document>)
    ensures InOrderOfMeeting(EncounterOrder(docs), Joined(docs))
  {
    if docs != [] {
      var n := |docs| - 1;
      EncounterOrderIsReadingOrder(docs[..n]);
      MeetAllInOrder(EncounterOrder(docs[..n]), Joined(docs[..n]), docs[n]);
    }
  }

  // ---------------------------------------------------------------- counts

  /** In how many documents a term occurs. */
  function DocumentFrequency(docs: seq<Document>, t: Term): nat {
    if docs == [] then 0
    else DocumentFrequency(docs[..|docs| - 1], t) + (if t in docs[|docs| - 1] then 1 else 0)
  }

  function Frequency(counts: map<nat, nat>, i: nat): nat {
    if i in counts then counts[i] else 0
  }

  /** A document's row holds the count of each of its terms, by index, and
      nothing else. */
  ghost predicate RowOf(row: map<nat, nat>, order: seq<Term>, doc: Document) {
    && (forall t :: t in doc ==> t in order)
    && (forall i :: 0 <= i < |order| ==> Frequency(row, i) == multiset(doc)[order[i]])
    && (forall i :: i in row ==> i < |order| && row[i] > 0)
  }

  ghost predicate CountsFor(vocab: map<Term, nat>, tf: seq<map<nat, nat>>, df: map<nat, nat>, docs: seq<Document>) {
    var order := EncounterOrder(docs);
    Numbers(vocab, order) && RowsFor(tf, order, docs) && FrequenciesFor(df, order, docs)
  }

  ghost predicate RowsFor(tf: seq<map<nat, nat>>, order: seq<Term>, docs: seq<Document>) {
    |tf| == |docs| && forall d :: 0 <= d < |docs| ==> docs[d] != [] && RowOf(tf[d], order, docs[d])
  }

  ghost predicate FrequenciesFor(df: map<nat, nat>, order: seq<Term>, docs: seq<Document>) {
    && (forall i :: 0 <= i < |order| ==> Frequency(df, i) == DocumentFrequency(docs, order[i]))
    && (forall i :: i in df ==> i < |order|)
  }

  lemma RowKept(row: map<nat, nat>, order: seq<Term>, order': seq<Term>, doc: Document)
    requires RowOf(row, order, doc) && order <= order' && NoDuplicates(order')
    ensures RowOf(row, order', doc)
  {
    forall t | t in doc ensures t in order' {
      var i :| 0 <= i < |order| && order[i] == t;
      assert order'[i] == t;
    }
    assert forall i :: |order| <= i < |order'| ==> order'[i] !in doc;
  }

  lemma RowNext(row: map<nat, nat>, order: seq<Term>, doc: Document, i: nat)
    requires RowOf(row, order, doc) && NoDuplicates(order) && i < |order|
    ensures RowOf(CountAt(row, i), order, doc + [order[i]])
  {
    assert multiset(doc + [order[i]]) == multiset(doc) + multiset{order[i]};
  }

  /** Adding one document's row and bumping the frequency of each of its terms. */
  lemma CountsExtend(docs: seq<Document>, tf: seq<map<nat, nat>>, df: map<nat, nat>, vocab: map<Term, nat>,
                     doc: Document, row: map<nat, nat>, df': map<nat, nat>, vocab': map<Term, nat>)
    requires CountsFor(vocab, tf, df, docs) && doc != []
    requires Numbers(vocab', MeetAll(EncounterOrder(docs), doc)) && RowOf(row, MeetAll(EncounterOrder(docs), doc), doc)
    requires forall i :: Frequency(df', i) == Frequency(df, i) + (if i in row then 1 else 0)
    requires forall i :: i in df' ==> i in df || i in row
    ensures CountsFor(vocab', tf + [row], df', docs + [doc])
  {
    var order, order' := EncounterOrder(docs), MeetAll(EncounterOrder(docs), doc);
    assert (docs + [doc])[..|docs|] == docs;
    MeetAllExtends(order, doc);
    RowsExtend(tf, order, docs, order', doc, row);
    FrequenciesExtend(df, docs, order', doc, row, df');
  }

  lemma RowsExtend(tf: seq<map<nat, nat>>, order: seq<Term>, docs: seq<Document>,
                   order': seq<Term>, doc: Document, row: map<nat, nat>)
    requires RowsFor(tf, order, docs) && order <= order' && NoDuplicates(order') && doc != [] && RowOf(row, order', doc)
    ensures RowsFor(tf + [row], order', docs + [doc])
  {
    forall d | 0 <= d < |docs| ensures RowOf(tf[d], order', docs[d]) { RowKept(tf[d], order, order', docs[d]); }
  }

  lemma FrequenciesExtend(df: map<nat, nat>, docs: seq<Document>, order': seq<Term>, doc: Document, row: map<nat, nat>, df': map<nat, nat>)
    requires FrequenciesFor(df, EncounterOrder(docs), docs) && RowOf(row, order', doc)
    requires EncounterOrder(docs) <= order' && NoDuplicates(order')
    requires forall i :: Frequency(df', i) == Frequency(df, i) + (if i in row then 1 else 0)
    requires forall i :: i in df' ==> i in df || i in row
    ensures FrequenciesFor(df', order', docs + [doc])
  {
    assert (docs + [doc])[..|docs|] == docs;
    forall i | 0 <= i < |order'| ensures Frequency(df', i) == DocumentFrequency(docs + [doc], order'[i]) {
      assert i in row <==> Frequency(row, i) > 0;
      assert order'[i] in doc <==> multiset(doc)[order'[i]] > 0;
      if i >= |EncounterOrder(docs)| { NewTerm(docs, order', i); }
    }
  }

  lemma NewTerm(docs: seq<Document>, order': seq<Term>, i: nat)
    requires EncounterOrder(docs) <= order' && NoDuplicates(order') && |EncounterOrder(docs)| <= i < |order'|
    ensures DocumentFrequency(docs, order'[i]) == 0
  {
    EncounterOrderTerms(docs, order'[i]);
    assert order'[i] !in EncounterOrder(docs);
  }

  // ---------------------------------------------------------------- builder

  class TermDocumentCounts {
    var vocab: map<Term, nat>
    var tfCounts: seq<map<nat, nat>>
    var dfCounts: map<nat, nat>

    /** The builder holds the counts of exactly these documents. */
    ghost predicate Holds(docs: seq<Document>)
      reads this
    {
      CountsFor(vocab, tfCounts, dfCounts, docs)
    }

    /** The growth anchor of these documents: vocabulary and document count. */
    ghost predicate Anchors(docs: seq<Document>)
      reads this
    {
      Numbers(vocab, EncounterOrder(docs)) && |tfCounts| == |docs|
    }

    constructor ()
      ensures Holds([]) && Anchors([])
    {
      vocab, tfCounts, dfCounts := map[], [], map[];
    }

    /** One empty row per document keeps the document count. */
    constructor FromRestored(restored: map<Term, nat>, documentCount: nat)
      ensures vocab == restored && |tfCounts| == documentCount && dfCounts == map[]
    {
      vocab := restored;
      tfCounts := seq(documentCount, _ => map[]);
      dfCounts := map[];
    }

    /** Record one document; a document without terms is not recorded. */
    method AddDocument(terms: Document, ghost docs: seq<Document>)
      requires Holds(docs)
      modifies this
      ensures Holds(if terms == [] then docs else docs + [terms])
    {
      if terms == [] { return; }
      ghost var before := vocab;
      var grown, row := AssignTerms(vocab, terms);
      AssignedTermsCount(EncounterOrder(docs), terms, vocab);
      vocab := grown;
      var df := BumpFrequencies(dfCounts, row.Keys);
      CountsExtend(docs, tfCounts, dfCounts, before, terms, row, df, vocab);
      dfCounts := df;
      tfCounts := tfCounts + [row];
    }

    /** Only grow the vocabulary and the document count. */
    method AddDocumentForCountsAnchor(terms: Document, ghost docs: seq<Document>)
      modifies this
      ensures vocab == AssignAll(old(vocab), terms) && |tfCounts| == |old(tfCounts)| + (if terms == [] then 0 else 1)
      ensures old(Anchors(docs)) ==> Anchors(if terms == [] then docs else docs + [terms])
    {
      if terms == [] { return; }
      for k := 0 to |terms|
        invariant vocab == AssignAll(old(vocab), terms[..k]) && tfCounts == old(tfCounts)
      {
        assert terms[..k + 1][..k] == terms[..k];
        vocab := Assign(vocab, terms[k]);
      }
      assert terms[..|terms|] == terms && (docs + [terms])[..|docs|] == docs;
      tfCounts := tfCounts + [map[]];
      if old(Anchors(docs)) { AssignAllNumbers(old(vocab), EncounterOrder(docs), terms); }
    }
  }

  /** Give every term its index and count the terms by index. */
  method AssignTerms(vocab: map<Term, nat>, terms: Document) returns (vocab': map<Term, nat>, row: map<nat, nat>)
    ensures vocab' == AssignAll(vocab, terms) && row == RowAll(vocab, terms)
  {
    vocab', row := vocab, map[];
    for k := 0 to |terms|
      invariant vocab' == AssignAll(vocab, terms[..k]) && row == RowAll(vocab, terms[..k])
    {
      assert terms[..k + 1][..k] == terms[..k];
      vocab' := Assign(vocab', terms[k]);
      row := CountAt(row, vocab'[terms[k]]);
    }
    assert terms[..|terms|] == terms;
  }

  /** The row of a document whose terms get their indices from this vocabulary on. */
  function RowAll(vocab: map<Term, nat>, terms: Document): map<nat, nat> {
    if terms == [] then map[] else
      var n := |terms| - 1;
      CountAt(RowAll(vocab, terms[..n]), Assign(AssignAll(vocab, terms[..n]), terms[n])[terms[n]])
  }

  lemma {:induction false} AssignedTermsCount(order: seq<Term>, terms: Document, vocab: map<Term, nat>)
    requires Numbers(vocab, order)
    ensures Counting(order, terms, AssignAll(vocab, terms), RowAll(vocab, terms))
  {
    if terms != [] {
      var front, t := terms[..|terms| - 1], terms[|terms| - 1];
      assert front + [t] == terms;
      AssignedTermsCount(order, front, vocab);
      var before, row := AssignAll(vocab, front), RowAll(vocab, front);
      AssignNext(order, front, t, before, row);
    }
  }

  /** One more document for every term index of a row, in any order. */
  method BumpFrequencies(df: map<nat, nat>, indices: set<nat>) returns (df': map<nat, nat>)
    ensures forall i :: Frequency(df', i) == Frequency(df, i) + (if i in indices then 1 else 0)
    ensures forall i :: i in df' ==> i in df || i in indices
  {
    df' := df;
    var left := indices;
    while left != {}
      invariant left <= indices
      invariant forall i :: Frequency(df', i) == Frequency(df, i) + (if i in indices && i !in left then 1 else 0)
      invariant forall i :: i in df' ==> i in df || i in indices
      decreases left
    {
      var i :| i in left;
      df' := df'[i := Frequency(df', i) + 1];
      left := left - {i};
    }
  }

  /** One term of the loop: its index, then its count. */
  lemma AssignNext(order: seq<Term>, before: Document, t: Term, vocab: map<Term, nat>, row: map<nat, nat>)
    requires Counting(order, before, vocab, row)
    ensures t in Assign(vocab, t)
    ensures Counting(order, before + [t], Assign(vocab, t), CountAt(row, Assign(vocab, t)[t]))
  {
    var met := MeetAll(order, before);
    assert (before + [t])[..|before|] == before;
    NumbersNext(vocab, met, t);
    CountNext(Assign(vocab, t), met, Meet(met, t), before, t, row);
  }

  function CountAt(row: map<nat, nat>, i: nat): map<nat, nat> {
    row[i := Frequency(row, i) + 1]
  }

  /** The vocabulary and the row after some of the document's terms. */
  ghost predicate Counting(order: seq<Term>, terms: Document, vocab: map<Term, nat>, row: map<nat, nat>) {
    Numbers(vocab, MeetAll(order, terms)) && RowOf(row, MeetAll(order, terms), terms)
  }

  lemma CountNext(vocab: map<Term, nat>, met: seq<Term>, met': seq<Term>, doc: Document, t: Term, row: map<nat, nat>)
    requires Numbers(vocab, met') && met <= met' && t in vocab && RowOf(row, met, doc)
    ensures RowOf(CountAt(row, vocab[t]), met', doc + [t])
  {
    IndexOf(vocab, met', t);
    RowKept(row, met, met', doc);
    RowNext(row, met', doc, vocab[t]);
  }

  lemma NumberingUnique(vocab: map<Term, nat>, vocab': map<Term, nat>, order: seq<Term>)
    requires Numbers(vocab, order) && Numbers(vocab', order)
    ensures vocab == vocab'
  {
    forall t ensures t in vocab <==> t in vocab' {
      if t in order { var i :| 0 <= i < |order| && order[i] == t; }
    }
    forall t | t in vocab ensures vocab[t] == vocab'[t] {
      var i :| 0 <= i < |order| && order[i] == t;
    }
  }

  /** The anchor builder and the full builder agree: fed the same documents they
      assign the same index to every term and report the same number of
      documents. */
  lemma AnchorAgreesWithFull(full: TermDocumentCounts, anchor: TermDocumentCounts, docs: seq<Document>)
    requires full.Holds(docs) && anchor.Anchors(docs)
    ensures full.vocab == anchor.vocab && |full.tfCounts| == |anchor.tfCounts|
  {
    NumberingUnique(full.vocab, anchor.vocab, EncounterOrder(docs));
  }
}
