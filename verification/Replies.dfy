/**
  Who in a reply answers for an employee, told by names alone: what a name stands for, which of the
  reply's employees speaks for an id, and what that makes of the fields asked about.
*/
module Replies {
  import opened Prelude
  import opened Contracts
  import opened ReconcileNames
  import opened Validate
  import opened Orchestrator
  import opened Rounds

  /** The name resolves to the employee now; or it does not resolve now, and the last earlier match that resolved it did. */
  ghost predicate StandsFor(r: Resume, name: string, id: EmployeeId) {
    var plain := ReconcileOne(r.norm, name, r.roster, map[]).matched;
    plain == Some(id) || (plain == None && LastMeans(r.prior, name, id))
  }

  /**
    Employee k of the reply answers for the id: of the names standing for it, k's is the first to appear,
    and of the employees under that name, k is the last.
   */
  ghost predicate Speaks(r: Resume, id: EmployeeId, k: nat) {
    && k < |r.reply| && StandsFor(r, r.reply[k].submittedName, id)
    && (forall j | k < j < |r.reply| :: r.reply[j].submittedName != r.reply[k].submittedName)
    && (forall j | 0 <= j < |r.reply| && StandsFor(r, r.reply[j].submittedName, id) ::
          exists i :: 0 <= i <= j && r.reply[i].submittedName == r.reply[k].submittedName)
  }

  ghost predicate NobodySpeaks(r: Resume, id: EmployeeId) {
    forall e <- r.reply :: !StandsFor(r, e.submittedName, id)
  }

  // ---------------------------------------------------------------------------------------------
  // The lookup finds the speaker
  // ---------------------------------------------------------------------------------------------

  /** The lookup's map leads a name of the reply to what the name stands for. */
  lemma LookupMeans(r: Resume, i: nat, id: EmployeeId)
    requires i < |r.reply|
    ensures var name, ids := r.reply[i].submittedName, ClassifyIds(r);
      name in ids && ids[name] == id <==> StandsFor(r, name, id)
  {
    hide NameToId, ReconcileOne, Reconcile, LastMeans;
    var name, current := r.reply[i].submittedName, Reconcile(r.norm, Names(r.reply), r.roster, map[]);
    LaterListDecides(r.prior, current, name);
    ReconciledIds(r.norm, Names(r.reply), r.roster, map[], i);
    assert Consistent(ReconcileOne(r.norm, name, r.roster, map[]));
    NameToIdMeans(r.prior, name, id);
  }

  /** Where a name of the reply first appears. */
  ghost function FirstAt(reply: Extracted, name: string): (k: nat)
    requires exists e <- reply :: e.submittedName == name
    ensures k < |reply| && reply[k].submittedName == name && forall j | 0 <= j < k :: reply[j].submittedName != name
  {
    if reply[0].submittedName == name then 0
    else
      assert forall e <- reply :: e == reply[0] || e in reply[1..];
      1 + FirstAt(reply[1..], name)
  }

  lemma {:induction false} NameOrderHas(reply: Extracted)
    ensures forall x :: x in NameOrder(reply) <==> exists e <- reply :: e.submittedName == x
  {
    if reply != [] {
      var n := |reply| - 1;
      NameOrderHas(reply[..n]);
      assert forall e :: e in reply <==> e == reply[n] || e in reply[..n];
    }
  }

  /** A name ahead of another in the order appears ahead of it in the reply. */
  lemma {:induction false} OrderIsFirstAppearance(reply: Extracted, a: nat, b: nat, j: nat)
    requires a < b < |NameOrder(reply)| && j < |reply| && reply[j].submittedName == NameOrder(reply)[b]
    ensures exists i :: 0 <= i < j && reply[i].submittedName == NameOrder(reply)[a]
  {
    var n := |reply| - 1;
    var before := NameOrder(reply[..n]);
    NameOrderHas(reply[..n]);
    if j < n {
      assert reply[..n][j] == reply[j] && reply[j] in reply[..n];
      assert NameOrder(reply)[b] in before;
      var b' :| 0 <= b' < |before| && before[b'] == NameOrder(reply)[b];
      DistinctOrder(reply);
      assert NameOrder(reply)[b'] == before[b'];
      assert b' == b;
      OrderIsFirstAppearance(reply[..n], a, b, j);
      var i :| 0 <= i < j && reply[..n][i].submittedName == before[a];
      assert reply[i].submittedName == before[a];
    } else if b < |before| {
      OrderHolds(reply[..n], a);
    } else {
      OrderHolds(reply[..n], a);
    }
  }

  lemma OrderHolds(reply: Extracted, a: nat)
    requires a < |NameOrder(reply)|
    ensures exists i :: 0 <= i < |reply| && reply[i].submittedName == NameOrder(reply)[a]
  {
    NameOrderHas(reply);
    assert NameOrder(reply)[a] in NameOrder(reply);
    var e :| e in reply && e.submittedName == NameOrder(reply)[a];
    var i :| 0 <= i < |reply| && reply[i] == e;
  }

  lemma {:induction false} DistinctOrder(reply: Extracted)
    ensures forall a, b | 0 <= a < b < |NameOrder(reply)| :: NameOrder(reply)[a] != NameOrder(reply)[b]
  {
    if reply != [] {
      DistinctOrder(reply[..|reply| - 1]);
    }
  }

  /** The first mapped name of the order, with nothing mapped to the id before it. */
  lemma {:induction false} FirstMappedIsFirst(names: seq<string>, ids: map<string, EmployeeId>, id: EmployeeId) returns (a: nat)
    requires exists x <- names :: x in ids && ids[x] == id
    ensures a < |names| && names[a] in ids && ids[names[a]] == id && FirstMapped(names, ids, id) == Some(names[a])
    ensures forall b | 0 <= b < a :: !(names[b] in ids && ids[names[b]] == id)
  {
    if names[0] in ids && ids[names[0]] == id {
      a := 0;
    } else {
      assert forall x <- names :: x == names[0] || x in names[1..];
      var rest := FirstMappedIsFirst(names[1..], ids, id);
      a := rest + 1;
      assert forall b | 0 < b < a :: names[b] == names[1..][b - 1];
    }
  }

  /** The dictionary keeps the last employee under a name. */
  lemma {:induction false} LastByName(reply: Extracted, k: nat)
    requires k < |reply| && forall j | k < j < |reply| :: reply[j].submittedName != reply[k].submittedName
    ensures reply[k].submittedName in ByName(reply) && ByName(reply)[reply[k].submittedName] == reply[k]
  {
    var n := |reply| - 1;
    if k < n {
      LastByName(reply[..n], k);
    }
  }

  lemma FindsTheSpeaker(r: Resume, p: Pair, k: nat)
    requires Speaks(r, p.id, k)
    ensures Answer(r, p) == Some(r.reply[k])
  {
    hide NameOrder, ByName, FirstMapped, ClassifyIds, StandsFor;
    var ids, order, name := ClassifyIds(r), NameOrder(r.reply), r.reply[k].submittedName;
    NameOrderHas(r.reply);
    LookupMeans(r, k, p.id);
    assert r.reply[k] in r.reply && name in order;
    var a := FirstMappedIsFirst(order, ids, p.id);
    var b :| 0 <= b < |order| && order[b] == name;
    FirstIsAhead(r, p.id, k, a, b);
    assert a == b;
    LastByName(r.reply, k);
  }

  lemma FirstIsAhead(r: Resume, id: EmployeeId, k: nat, a: nat, b: nat)
    requires Speaks(r, id, k) && a < |NameOrder(r.reply)| && b < |NameOrder(r.reply)|
    requires NameOrder(r.reply)[b] == r.reply[k].submittedName
    requires var ids, name := ClassifyIds(r), NameOrder(r.reply)[a]; name in ids && ids[name] == id
    ensures b <= a
  {
    hide NameOrder, ClassifyIds, StandsFor;
    NameOrderHas(r.reply);
    var name := NameOrder(r.reply)[a];
    assert name in NameOrder(r.reply);
    var j := FirstAt(r.reply, name);
    LookupMeans(r, j, id);
    var i :| 0 <= i <= j && r.reply[i].submittedName == r.reply[k].submittedName;
    if a < b {
      OrderIsFirstAppearance(r.reply, a, b, i);
      assert false;
    }
  }

  lemma FindsNobody(r: Resume, p: Pair)
    ensures Answer(r, p).None? <==> NobodySpeaks(r, p.id)
  {
    hide ClassifyIds, StandsFor;
    ReplyEmployeeMeans(r.reply, ClassifyIds(r), p.id);
    forall i | 0 <= i < |r.reply|
      ensures var name, ids := r.reply[i].submittedName, ClassifyIds(r); name in ids && ids[name] == p.id <==> StandsFor(r, name, p.id)
    {
      LookupMeans(r, i, p.id);
    }
  }

  // ---------------------------------------------------------------------------------------------
  // What a reply answers
  // ---------------------------------------------------------------------------------------------

  /** If any name of the reply stands for the employee, somebody speaks. */
  lemma SomebodySpeaks(r: Resume, id: EmployeeId) returns (k: nat)
    requires !NobodySpeaks(r, id)
    ensures Speaks(r, id, k)
  {
    hide StandsFor;
    var first := FirstStanding(r, id, 0);
    var name := r.reply[first].submittedName;
    k := LastUnder(r.reply, name, |r.reply|);
  }

  lemma FirstStanding(r: Resume, id: EmployeeId, from: nat) returns (k: nat)
    requires from <= |r.reply| && forall j | 0 <= j < from :: !StandsFor(r, r.reply[j].submittedName, id)
    requires !NobodySpeaks(r, id)
    ensures k < |r.reply| && StandsFor(r, r.reply[k].submittedName, id)
    ensures forall j | 0 <= j < k :: !StandsFor(r, r.reply[j].submittedName, id)
    decreases |r.reply| - from
  {
    hide StandsFor;
    if from < |r.reply| && !StandsFor(r, r.reply[from].submittedName, id) {
      k := FirstStanding(r, id, from + 1);
    } else {
      k := from;
    }
  }

  lemma {:induction false} LastUnder(reply: Extracted, name: string, n: nat) returns (k: nat)
    requires n <= |reply| && (exists j :: 0 <= j < n && reply[j].submittedName == name)
    requires forall j | n <= j < |reply| :: reply[j].submittedName != name
    ensures k < |reply| && reply[k].submittedName == name && forall j | k < j < |reply| :: reply[j].submittedName != name
  {
    if reply[n - 1].submittedName == name {
      k := n - 1;
    } else {
      k := LastUnder(reply, name, n - 1);
    }
  }

  /** What the speaker's own field makes of a question: a positive value supplies, a zero confirms, silence carries forward. */
  function AnswerGiven(value: Option<Hours>): Outcome {
    match value
    case None => CarriedForward
    case Some(h) => if h > 0.0 then ClientSupplied else ConfirmedDropped
  }

  /** A field asked about is answered by whoever speaks for its employee, as that employee's own field says. */
  lemma SpeakerAnswers(labels: Labels, r: Resume, p: Pair, k: nat)
    requires p in labels && labels[p] == Asked && Speaks(r, p.id, k)
    ensures p in Classified(labels, r) && Classified(labels, r)[p] == AnswerGiven(r.reply[k].Get(p.field))
  {
    hide Answer, Classified, AnswerOf, AnswerGiven, StandsFor;
    FindsTheSpeaker(r, p, k);
    LabelFromAnswer(labels, r, p);
    AnswerFrom(r.reply[k], p.field);
  }

  lemma LabelFromAnswer(labels: Labels, r: Resume, p: Pair)
    requires p in labels && labels[p] == Asked
    ensures p in Classified(labels, r) && Classified(labels, r)[p] == AnswerOf(Answer(r, p), p.field)
  {
    hide Answer, AnswerOf;
  }

  lemma AnswerFrom(e: ExtractedEmployee, f: HoursField)
    ensures AnswerOf(Some(e), f) == AnswerGiven(e.Get(f))
  {
  }

  /** It stays asked exactly when no name of the reply stands for the employee. */
  lemma StaysAskedExactly(labels: Labels, r: Resume, p: Pair)
    requires p in labels && labels[p] == Asked
    ensures p in Classified(labels, r)
    ensures Classified(labels, r)[p] == Asked <==> NobodySpeaks(r, p.id)
  {
    hide Answer, NobodySpeaks;
    FindsNobody(r, p);
  }

  /** A label that was not asked about this round is left alone, and no label appears or goes. */
  lemma OthersKeepTheirLabels(labels: Labels, r: Resume, p: Pair)
    ensures p in Classified(labels, r) <==> p in labels
    ensures p in labels && labels[p] != Asked ==> Classified(labels, r)[p] == labels[p]
  {
    hide Answer;
  }

  /** A sole employee of the reply standing for the id speaks for it. */
  lemma SoleSpeaker(r: Resume, id: EmployeeId, k: nat)
    requires k < |r.reply| && forall j | 0 <= j < |r.reply| :: StandsFor(r, r.reply[j].submittedName, id) <==> j == k
    ensures forall j: nat :: Speaks(r, id, j) <==> j == k
  {
    hide StandsFor;
    forall j | k < j < |r.reply| ensures r.reply[j].submittedName != r.reply[k].submittedName {
      assert !StandsFor(r, r.reply[j].submittedName, id);
    }
  }
}
