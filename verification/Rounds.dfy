/**
  Resuming a run over the client's answers. Each asked field of the reply is classified, its
  value written over the combined extraction, and two different sets steer detection and
  backfill; labels accumulate over the rounds of one conversation.
*/
module Rounds {
  import opened Prelude
  import opened Contracts
  import opened ReconcileNames
  import opened Validate
  import opened AliasLearning
  import opened Backfill
  import opened Orchestrator

  /** What became of a field the client was asked about. All but `Asked` are terminal. */
  datatype Outcome = Asked | CarriedForward | ConfirmedDropped | ClientSupplied {
    /** The client gave a value, zero included. */
    predicate Stated() {
      this == ConfirmedDropped || this == ClientSupplied
    }
  }

  type Labels = map<Pair, Outcome>

  /** Everything one resume reads: both extractions are whatever the model returned. */
  datatype Resume = Resume(
    norm: Normalizer,
    roster: Roster,
    reply: Extracted,
    combined: Extracted,
    snapshot: Option<Extracted>,
    prior: seq<NameMatch>,
    overrides: map<string, IdText>,
    candidates: AliasCandidates)

  // ---------------------------------------------------------------------------------------------
  // Finding an employee in the reply
  // ---------------------------------------------------------------------------------------------

  /** Prior matches first, the reply's own after them, so a restated name takes its current meaning. */
  function ClassifyIds(r: Resume): map<string, EmployeeId> {
    NameToId(r.prior + Reconcile(r.norm, Names(r.reply), r.roster, map[]))
  }

  /** The reply's names in order of first appearance. */
  function NameOrder(reply: Extracted): seq<string> {
    if reply == [] then []
    else
      var name := reply[|reply| - 1].submittedName;
      var before := NameOrder(reply[..|reply| - 1]);
      if name in before then before else before + [name]
  }

  /** The employee each name stands for; the last one with a name wins. */
  function ByName(reply: Extracted): map<string, ExtractedEmployee> {
    if reply == [] then map[]
    else ByName(reply[..|reply| - 1])[reply[|reply| - 1].submittedName := reply[|reply| - 1]]
  }

  function FirstMapped(names: seq<string>, ids: map<string, EmployeeId>, id: EmployeeId): Option<string> {
    if names == [] then None
    else if names[0] in ids && ids[names[0]] == id then Some(names[0])
    else FirstMapped(names[1..], ids, id)
  }

  lemma {:induction false} FirstMappedMeans(names: seq<string>, ids: map<string, EmployeeId>, id: EmployeeId)
    ensures var n := FirstMapped(names, ids, id);
      && (n.Some? ==> n.value in names && n.value in ids && ids[n.value] == id)
      && (n.None? ==> forall x <- names :: x in ids ==> ids[x] != id)
  {
    if names != [] && !(names[0] in ids && ids[names[0]] == id) {
      FirstMappedMeans(names[1..], ids, id);
      assert forall x <- names :: x == names[0] || x in names[1..];
    }
  }

  lemma {:induction false} NamesKept(reply: Extracted)
    ensures forall x :: x in NameOrder(reply) <==> x in ByName(reply)
    ensures forall e <- reply :: e.submittedName in ByName(reply)
    ensures forall x <- ByName(reply) :: ByName(reply)[x] in reply && ByName(reply)[x].submittedName == x
  {
    if reply != [] {
      NamesKept(reply[..|reply| - 1]);
      assert forall e <- reply :: e == reply[|reply| - 1] || e in reply[..|reply| - 1];
    }
  }

  function ReplyEmployee(reply: Extracted, ids: map<string, EmployeeId>, id: EmployeeId): Option<ExtractedEmployee> {
    var name := FirstMapped(NameOrder(reply), ids, id);
    if name.Some? && name.value in ByName(reply) then Some(ByName(reply)[name.value]) else None
  }

  /** The employee found is in the reply under a name that means the id; none is found only when the reply has no such name. */
  lemma ReplyEmployeeMeans(reply: Extracted, ids: map<string, EmployeeId>, id: EmployeeId)
    ensures var e := ReplyEmployee(reply, ids, id);
      && (e.Some? ==> e.value in reply && e.value.submittedName in ids && ids[e.value.submittedName] == id)
      && (e.None? ==> forall x <- reply :: x.submittedName in ids ==> ids[x.submittedName] != id)
  {
    NamesKept(reply);
    FirstMappedMeans(NameOrder(reply), ids, id);
  }

  method FindReplyEmployee(reply: Extracted, ids: map<string, EmployeeId>, id: EmployeeId) returns (found: Option<ExtractedEmployee>)
    ensures found == ReplyEmployee(reply, ids, id)
  {
    var order: seq<string> := [];
    var byName: map<string, ExtractedEmployee> := map[];
    for i := 0 to |reply|
      invariant order == NameOrder(reply[..i]) && byName == ByName(reply[..i])
    {
      assert reply[..i + 1][..i] == reply[..i];
      var name := reply[i].submittedName;
      order := if name in order then order else order + [name];
      byName := byName[name := reply[i]];
    }
    assert reply[..|reply|] == reply;
    NamesKept(reply);
    for i := 0 to |order|
      invariant FirstMapped(order, ids, id) == FirstMapped(order[i..], ids, id)
    {
      if order[i] in ids && ids[order[i]] == id {
        assert order[i] in order;
        return Some(byName[order[i]]);
      }
    }
    found := None;
  }

  // ---------------------------------------------------------------------------------------------
  // Classifying the reply
  // ---------------------------------------------------------------------------------------------

  /** A positive value is supplied, a zero confirms the drop, silence carries forward; nobody found stays asked. */
  function AnswerOf(e: Option<ExtractedEmployee>, f: HoursField): Outcome {
    if e.None? then Asked
    else if IsPaid(e.value.Get(f)) then ClientSupplied
    else if e.value.Get(f).Some? then ConfirmedDropped
    else CarriedForward
  }

  /** The value written over the combined extraction for an asked field. */
  function ForcedValue(e: Option<ExtractedEmployee>, f: HoursField): Option<Hours> {
    if e.None? then None else e.value.Get(f)
  }

  function Answer(r: Resume, p: Pair): Option<ExtractedEmployee> {
    ReplyEmployee(r.reply, ClassifyIds(r), p.id)
  }

  function Classified(labels: Labels, r: Resume): Labels {
    map p | p in labels :: if labels[p] == Asked then AnswerOf(Answer(r, p), p.field) else labels[p]
  }

  function ForcedValues(labels: Labels, r: Resume): map<Pair, Option<Hours>> {
    map p | p in labels && labels[p] == Asked :: ForcedValue(Answer(r, p), p.field)
  }

  function NewlyClassified(labels: Labels, r: Resume): set<Pair> {
    set p | p in labels && labels[p] == Asked && Answer(r, p).Some?
  }

  function Unresolvable(labels: Labels, r: Resume): set<Pair> {
    set p | p in labels && labels[p] == Asked && Answer(r, p).None?
  }

  function StatedBefore(labels: Labels): set<Pair> {
    set p | p in labels && labels[p].Stated()
  }

  function CarriedBefore(labels: Labels): set<Pair> {
    set p | p in labels && labels[p] == CarriedForward
  }

  /** Prior terminals and everything answered this round: not to be raised again. */
  function SuppressDetection(labels: Labels, r: Resume): set<Pair> {
    StatedBefore(labels) + CarriedBefore(labels) + NewlyClassified(labels, r)
  }

  /** Prior and new drops and supplied values, and what could not be classified: not to be restored. */
  function BackfillSkip(labels: Labels, r: Resume): set<Pair> {
    StatedBefore(labels)
    + (set p | p in NewlyClassified(labels, r) && Classified(labels, r)[p].Stated())
    + Unresolvable(labels, r)
  }

  /** The combined extraction with every asked field replaced by what the reply said. */
  function Overwritten(labels: Labels, r: Resume): (x: Extracted)
    ensures |x| == |r.combined|
  {
    var ids := NameToId(Reconcile(r.norm, Names(r.combined), r.roster, map[]));
    var forced := ForcedValues(labels, r);
    seq(|r.combined|, i requires 0 <= i < |r.combined| => OverwriteOne(r.combined[i], ids, forced))
  }

  function OverwriteOne(e: ExtractedEmployee, ids: map<string, EmployeeId>, forced: map<Pair, Option<Hours>>): ExtractedEmployee {
    if e.submittedName !in ids then e
    else e.Mapped(f => if Pair(ids[e.submittedName], f) in forced then forced[Pair(ids[e.submittedName], f)] else e.Get(f))
  }

  /** Snapshot names resolve first, the persisted prior matches override them. */
  function PriorForBackfill(r: Resume): seq<NameMatch> {
    if r.snapshot.Some? then Reconcile(r.norm, Names(r.snapshot.value), r.roster, map[]) + r.prior else r.prior
  }

  function AnsweredContext(labels: Labels, r: Resume): Context {
    Context(r.norm, r.roster, r.snapshot, Some(PriorForBackfill(r)), BackfillSkip(labels, r), SuppressDetection(labels, r),
            r.overrides, r.candidates)
  }

  function FirstContext(r: Resume): Context {
    Context(r.norm, r.roster, r.snapshot, Some(r.prior), {}, {}, r.overrides, r.candidates)
  }

  /** One asked field: its new label and the value to write over the combined extraction. */
  method ClassifyField(found: Option<ExtractedEmployee>, f: HoursField) returns (outcome: Outcome, value: Option<Hours>)
    ensures outcome == AnswerOf(found, f) && value == ForcedValue(found, f)
  {
    if found.None? {
      return Asked, None;
    }
    var raw := found.value.Get(f);
    if raw.Some? && raw.value > 0.0 {
      return ClientSupplied, raw;
    } else if raw.Some? && raw.value == 0.0 {
      return ConfirmedDropped, Some(0.0);
    }
    return CarriedForward, None;
  }

  method ClassifyPairs(labels: Labels, reply: Extracted, ids: map<string, EmployeeId>)
    returns (clarified: Labels, forced: map<Pair, Option<Hours>>, newly: set<Pair>, unresolvable: set<Pair>)
    ensures clarified.Keys == labels.Keys
    ensures forall p <- labels ::
        clarified[p] == if labels[p] != Asked then labels[p] else AnswerOf(ReplyEmployee(reply, ids, p.id), p.field)
    ensures forall p :: p in forced <==> p in labels && labels[p] == Asked
    ensures forall p <- forced :: forced[p] == ForcedValue(ReplyEmployee(reply, ids, p.id), p.field)
    ensures forall p :: p in newly <==> p in labels && labels[p] == Asked && ReplyEmployee(reply, ids, p.id).Some?
    ensures forall p :: p in unresolvable <==> p in labels && labels[p] == Asked && ReplyEmployee(reply, ids, p.id).None?
  {
    hide ReplyEmployee, AnswerOf, ForcedValue;
    clarified, forced, newly, unresolvable := labels, map[], {}, {};
    var todo := labels.Keys;
    while todo != {}
      invariant todo <= labels.Keys && clarified.Keys == labels.Keys
      invariant forall p <- labels ::
        clarified[p] == if p in todo || labels[p] != Asked then labels[p] else AnswerOf(ReplyEmployee(reply, ids, p.id), p.field)
      invariant forall p :: p in forced <==> p in labels && p !in todo && labels[p] == Asked
      invariant forall p <- forced :: forced[p] == ForcedValue(ReplyEmployee(reply, ids, p.id), p.field)
      invariant forall p :: p in newly <==>
        p in labels && p !in todo && labels[p] == Asked && ReplyEmployee(reply, ids, p.id).Some?
      invariant forall p :: p in unresolvable <==>
        p in labels && p !in todo && labels[p] == Asked && ReplyEmployee(reply, ids, p.id).None?
      decreases |todo|
    {
      var p :| p in todo;
      todo := todo - {p};
      if labels[p] != Asked {
        continue;
      }
      var found := FindReplyEmployee(reply, ids, p.id);
      var outcome, value := ClassifyField(found, p.field);
      clarified, forced := clarified[p := outcome], forced[p := value];
      if found.None? {
        unresolvable := unresolvable + {p};
      } else {
        newly := newly + {p};
      }
    }
  }

  method ClassifyReply(labels: Labels, r: Resume)
    returns (clarified: Labels, forced: map<Pair, Option<Hours>>, newly: set<Pair>, unresolvable: set<Pair>)
    ensures clarified == Classified(labels, r) && forced == ForcedValues(labels, r)
    ensures newly == NewlyClassified(labels, r) && unresolvable == Unresolvable(labels, r)
  {
    hide Reconcile, NameToId, ReplyEmployee, AnswerOf, ForcedValue;
    var current := ReconcileNames.ReconcileNames(r.norm, Names(r.reply), r.roster, map[]);
    clarified, forced, newly, unresolvable := ClassifyPairs(labels, r.reply, NameToId(r.prior + current));
  }

  lemma NothingForced(e: ExtractedEmployee, ids: map<string, EmployeeId>)
    ensures OverwriteOne(e, ids, map[]) == e
  {
  }

  method OverwriteCombined(r: Resume, forced: map<Pair, Option<Hours>>) returns (x: Extracted)
    ensures |x| == |r.combined|
    ensures var ids := NameToId(Reconcile(r.norm, Names(r.combined), r.roster, map[]));
      forall i | 0 <= i < |x| :: x[i] == OverwriteOne(r.combined[i], ids, forced)
  {
    hide Reconcile, NameToId, OverwriteOne;
    if forced == map[] {
      forall i | 0 <= i < |r.combined| {
        NothingForced(r.combined[i], NameToId(Reconcile(r.norm, Names(r.combined), r.roster, map[])));
      }
      return r.combined;
    }
    var matches := ReconcileNames.ReconcileNames(r.norm, Names(r.combined), r.roster, map[]);
    var ids := NameToId(matches);
    x := [];
    for i := 0 to |r.combined|
      invariant |x| == i && forall k | 0 <= k < i :: x[k] == OverwriteOne(r.combined[k], ids, forced)
    {
      var e := OverwriteEmployee(r.combined[i], ids, forced);
      x := x + [e];
    }
  }

  method OverwriteEmployee(e: ExtractedEmployee, ids: map<string, EmployeeId>, forced: map<Pair, Option<Hours>>)
    returns (x: ExtractedEmployee)
    ensures x == OverwriteOne(e, ids, forced)
  {
    x := e;
    if e.submittedName in ids {
      x := ForceFields(e, ids[e.submittedName], forced);
    }
  }

  method ForceFields(e: ExtractedEmployee, id: EmployeeId, forced: map<Pair, Option<Hours>>) returns (x: ExtractedEmployee)
    ensures x == e.Mapped(f => if Pair(id, f) in forced then forced[Pair(id, f)] else e.Get(f))
  {
    x := e;
    for k := 0 to |HOURS_FIELDS|
      invariant x.submittedName == e.submittedName && x.contribution401k == e.contribution401k
      invariant forall f: HoursField ::
        x.Get(f) == if f in HOURS_FIELDS[..k] && Pair(id, f) in forced then forced[Pair(id, f)] else e.Get(f)
    {
      var f := HOURS_FIELDS[k];
      assert HOURS_FIELDS[..k + 1] == HOURS_FIELDS[..k] + [f];
      if Pair(id, f) in forced {
        x := x.With(f, forced[Pair(id, f)]);
      }
    }
    forall f: HoursField ensures x.Get(f) == if Pair(id, f) in forced then forced[Pair(id, f)] else e.Get(f) {
      AllFields(f);
    }
    assert x.Get(Regular) == x.regular && x.Get(Overtime) == x.overtime && x.Get(Vacation) == x.vacation;
    assert x.Get(Sick) == x.sick && x.Get(Holiday) == x.holiday;
  }

  method SplitTerminals(labels: Labels) returns (stated: set<Pair>, carried: set<Pair>)
    ensures stated == StatedBefore(labels) && carried == CarriedBefore(labels)
  {
    stated, carried := {}, {};
    var todo := labels.Keys;
    while todo != {}
      invariant todo <= labels.Keys
      invariant forall p :: p in stated <==> p in labels && p !in todo && labels[p].Stated()
      invariant forall p :: p in carried <==> p in labels && p !in todo && labels[p] == CarriedForward
      decreases |todo|
    {
      var p :| p in todo;
      todo := todo - {p};
      if labels[p].Stated() {
        stated := stated + {p};
      } else if labels[p] == CarriedForward {
        carried := carried + {p};
      }
    }
  }

  method SkipStated(stated: set<Pair>, newly: set<Pair>, clarified: Labels) returns (skip: set<Pair>)
    requires newly <= clarified.Keys
    ensures skip == stated + set p | p in newly && clarified[p].Stated()
  {
    skip := stated;
    var todo := newly;
    while todo != {}
      invariant todo <= newly
      invariant forall p :: p in skip <==> p in stated || (p in newly && p !in todo && clarified[p].Stated())
      decreases |todo|
    {
      var p :| p in todo;
      todo := todo - {p};
      if clarified[p].Stated() {
        skip := skip + {p};
      }
    }
  }

  method AnswerRound(labels: Labels, r: Resume) returns (clarified: Labels, stages: Result<Stages, StageError>)
    ensures clarified == Classified(labels, r)
    ensures stages == StagesOf(AnsweredContext(labels, r), Overwritten(labels, r))
  {
    hide ForcedValues, Unresolvable, StatedBefore, CarriedBefore, StagesOf, Reconcile, NameToId, AnswerOf, OverwriteOne, Answer;
    var stated, carried := SplitTerminals(labels);
    var forced, newly, unresolvable;
    clarified, forced, newly, unresolvable := ClassifyReply(labels, r);
    var suppress := stated + carried + newly;
    var skip := SkipStated(stated, newly, clarified);
    skip := skip + unresolvable;
    var x := OverwriteCombined(r, forced);
    assert x == Overwritten(labels, r);
    var prior := r.prior;
    if r.snapshot.Some? {
      var snapshotMatches := ReconcileNames.ReconcileNames(r.norm, Names(r.snapshot.value), r.roster, map[]);
      prior := snapshotMatches + prior;
    }
    assert skip == BackfillSkip(labels, r);
    stages := RunStages(Context(r.norm, r.roster, r.snapshot, Some(prior), skip, suppress, r.overrides, r.candidates), x);
  }
}
