/** Carry-forward of hours the client went silent on, from the pre-clarification snapshot. */
module Backfill {
  import opened Prelude
  import opened Contracts
  import opened Validate

  function FilledValue(current: Option<Hours>, snap: Option<Hours>, skipped: bool): Option<Hours> {
    if !IsPaid(current) && IsPaid(snap) && !skipped then snap else current
  }

  function FillEmployee(e: ExtractedEmployee, snap: ExtractedEmployee, id: EmployeeId, skip: set<Pair>): ExtractedEmployee {
    e.Mapped(f => FilledValue(e.Get(f), snap.Get(f), Pair(id, f) in skip))
  }

  /** An employee whose name leads to a snapshot employee is filled from it; any other is kept. */
  function BackfillOne(e: ExtractedEmployee, keyed: map<EmployeeId, ExtractedEmployee>, ids: map<string, EmployeeId>, skip: set<Pair>)
    : ExtractedEmployee
  {
    if e.submittedName in ids && ids[e.submittedName] in keyed
    then FillEmployee(e, keyed[ids[e.submittedName]], ids[e.submittedName], skip)
    else e
  }

  function SnapshotById(snapshot: Extracted, prior: Option<seq<NameMatch>>): map<EmployeeId, ExtractedEmployee> {
    KeyedById(snapshot, NameToId(if prior.Some? then prior.value else []))
  }

  function FilledFrom(extracted: Extracted, keyed: map<EmployeeId, ExtractedEmployee>, ids: map<string, EmployeeId>, skip: set<Pair>)
    : (r: Extracted)
    ensures |r| == |extracted|
    ensures forall i | 0 <= i < |extracted| :: r[i] == BackfillOne(extracted[i], keyed, ids, skip)
  {
    seq(|extracted|, i requires 0 <= i < |extracted| => BackfillOne(extracted[i], keyed, ids, skip))
  }

  function Backfilled(extracted: Extracted, snapshot: Option<Extracted>, prior: Option<seq<NameMatch>>, matches: seq<NameMatch>,
                      skip: set<Pair>): Extracted
  {
    if snapshot.None? then extracted
    else FilledFrom(extracted, SnapshotById(snapshot.value, prior), NameToId(matches), skip)
  }

  method BackfillExtracted(extracted: Extracted, snapshot: Option<Extracted>, prior: Option<seq<NameMatch>>, matches: seq<NameMatch>,
                           skip: set<Pair>) returns (r: Extracted)
    ensures r == Backfilled(extracted, snapshot, prior, matches, skip)
  {
    if snapshot.None? {
      return extracted;
    }
    var keyed := IdKeyed(snapshot.value, if prior.Some? then prior.value else []);
    if keyed == map[] {
      ghost var filled := FilledFrom(extracted, keyed, NameToId(matches), skip);
      assert forall i | 0 <= i < |extracted| :: filled[i] == extracted[i];
      return extracted;
    }
    var ids := NameToId(matches);
    r := [];
    for i := 0 to |extracted|
      invariant |r| == i
      invariant forall k | 0 <= k < i :: r[k] == BackfillOne(extracted[k], keyed, ids, skip)
    {
      var e := extracted[i];
      if e.submittedName !in ids || ids[e.submittedName] !in keyed {
        r := r + [e];
        continue;
      }
      var filled := FillFields(e, keyed[ids[e.submittedName]], ids[e.submittedName], skip);
      r := r + [filled];
    }
  }

  method FillFields(e: ExtractedEmployee, snap: ExtractedEmployee, id: EmployeeId, skip: set<Pair>) returns (r: ExtractedEmployee)
    ensures r == FillEmployee(e, snap, id, skip)
  {
    r := e;
    for k := 0 to |HOURS_FIELDS|
      invariant r.submittedName == e.submittedName && r.contribution401k == e.contribution401k
      invariant forall f: HoursField ::
        r.Get(f) == if f in HOURS_FIELDS[..k] then FilledValue(e.Get(f), snap.Get(f), Pair(id, f) in skip) else e.Get(f)
    {
      var f := HOURS_FIELDS[k];
      assert HOURS_FIELDS[..k + 1] == HOURS_FIELDS[..k] + [f];
      if !IsPaid(e.Get(f)) {
        if IsPaid(snap.Get(f)) {
          if Pair(id, f) !in skip {
            r := r.With(f, snap.Get(f));
          }
        }
      }
    }
    forall f: HoursField ensures r.Get(f) == FilledValue(e.Get(f), snap.Get(f), Pair(id, f) in skip) {
      AllFields(f);
    }
    assert r.Get(Regular) == r.regular && r.Get(Overtime) == r.overtime && r.Get(Vacation) == r.vacation;
    assert r.Get(Sick) == r.sick && r.Get(Holiday) == r.holiday;
  }

  /** Names and the 401k override are never touched, and a backfilled field is told apart by its old and snapshot values. */
  lemma FillGet(e: ExtractedEmployee, snap: ExtractedEmployee, id: EmployeeId, skip: set<Pair>, f: HoursField)
    ensures FillEmployee(e, snap, id, skip).Get(f) == FilledValue(e.Get(f), snap.Get(f), Pair(id, f) in skip)
    ensures FillEmployee(e, snap, id, skip).submittedName == e.submittedName
    ensures FillEmployee(e, snap, id, skip).contribution401k == e.contribution401k
  {
    match f case Regular => case Overtime => case Vacation => case Sick => case Holiday =>
  }

  lemma SameNames(extracted: Extracted, snapshot: Option<Extracted>, prior: Option<seq<NameMatch>>, matches: seq<NameMatch>, skip: set<Pair>)
    ensures Names(Backfilled(extracted, snapshot, prior, matches, skip)) == Names(extracted)
  {
    assert forall e: ExtractedEmployee, snap: ExtractedEmployee, id, s ::
        FillEmployee(e, snap, id, s).submittedName == e.submittedName;
  }

  // ---------------------------------------------------------------------------------------------
  // What backfill keeps
  // ---------------------------------------------------------------------------------------------

  /**
    Field by field: a changed value was unpaid, is outside the skip set, and is now the paid
    value of the same employee's snapshot row. Nothing else changes, so a paid value never does.
   */
  lemma ChangedOnlyFromOwnSnapshot(extracted: Extracted, snapshot: Extracted, prior: Option<seq<NameMatch>>, matches: seq<NameMatch>,
                                   skip: set<Pair>, i: nat, f: HoursField)
    requires i < |extracted|
    ensures var now := Backfilled(extracted, Some(snapshot), prior, matches, skip)[i].Get(f);
      var was, name, ids := extracted[i].Get(f), extracted[i].submittedName, NameToId(matches);
      now != was <==>
        && !IsPaid(was)
        && name in ids && Pair(ids[name], f) !in skip
        && ids[name] in SnapshotById(snapshot, prior) && IsPaid(SnapshotById(snapshot, prior)[ids[name]].Get(f))
    ensures var now := Backfilled(extracted, Some(snapshot), prior, matches, skip)[i].Get(f);
      now != extracted[i].Get(f) ==>
        && IsPaid(now)
        && exists s <- snapshot :: s.Get(f) == now && prior.Some? && s.submittedName in NameToId(prior.value)
             && NameToId(prior.value)[s.submittedName] == NameToId(matches)[extracted[i].submittedName]
  {
    var e, ids, keyed := extracted[i], NameToId(matches), SnapshotById(snapshot, prior);
    if e.submittedName in ids && ids[e.submittedName] in keyed {
      var id := ids[e.submittedName];
      FillGet(e, keyed[id], id, skip, f);
      KeyedSound(snapshot, NameToId(if prior.Some? then prior.value else []), id);
    }
  }

  /** Backfilling twice is backfilling once. */
  lemma Idempotent(extracted: Extracted, snapshot: Option<Extracted>, prior: Option<seq<NameMatch>>, matches: seq<NameMatch>, skip: set<Pair>)
    ensures var once := Backfilled(extracted, snapshot, prior, matches, skip);
      Backfilled(once, snapshot, prior, matches, skip) == once
  {
    if snapshot.Some? {
      var once := Backfilled(extracted, snapshot, prior, matches, skip);
      var twice := Backfilled(once, snapshot, prior, matches, skip);
      forall i | 0 <= i < |extracted| ensures twice[i] == once[i] {
      }
    }
  }

  // ---------------------------------------------------------------------------------------------
  // Detection after backfill
  // ---------------------------------------------------------------------------------------------

  /** The drops whose employee and field lie in the skip set. */
  function InSkip(drops: seq<RawFieldDrop>, ids: map<string, EmployeeId>, skip: set<Pair>): seq<RawFieldDrop> {
    if drops == [] then []
    else
      var d := drops[|drops| - 1];
      var before := InSkip(drops[..|drops| - 1], ids, skip);
      if d.submittedName in ids && Pair(ids[d.submittedName], d.field) in skip then before + [d] else before
  }

  lemma {:induction false} InSkipConcat(a: seq<RawFieldDrop>, b: seq<RawFieldDrop>, ids: map<string, EmployeeId>, skip: set<Pair>)
    ensures InSkip(a + b, ids, skip) == InSkip(a, ids, skip) + InSkip(b, ids, skip)
  {
    if b == [] {
      assert a + b == a;
    } else {
      var n := |b| - 1;
      assert (a + b)[..|a + b| - 1] == a + b[..n];
      InSkipConcat(a, b[..n], ids, skip);
    }
  }

  /** Keying commutes with backfilling: the same ids, each with its backfilled employee. */
  lemma {:induction false} KeyedFilled(extracted: Extracted, keyed: map<EmployeeId, ExtractedEmployee>, ids: map<string, EmployeeId>,
                                       skip: set<Pair>)
    ensures var a, b := KeyedById(extracted, ids), KeyedById(FilledFrom(extracted, keyed, ids, skip), ids);
      a.Keys == b.Keys && forall id <- a.Keys :: b[id] == BackfillOne(a[id], keyed, ids, skip)
  {
    if extracted != [] {
      var n := |extracted| - 1;
      KeyedFilled(extracted[..n], keyed, ids, skip);
      assert FilledFrom(extracted, keyed, ids, skip)[..n] == FilledFrom(extracted[..n], keyed, ids, skip);
      SubmittedNameKept(extracted[n], keyed, ids, skip);
    }
  }

  lemma SubmittedNameKept(e: ExtractedEmployee, keyed: map<EmployeeId, ExtractedEmployee>, ids: map<string, EmployeeId>, skip: set<Pair>)
    ensures BackfillOne(e, keyed, ids, skip).submittedName == e.submittedName
  {
  }

  /** A pair whose second member is filled from its first keeps exactly the drops in the skip set. */
  lemma {:induction false} FieldScanFilled(o: ExtractedEmployee, r: ExtractedEmployee, id: EmployeeId, ids: map<string, EmployeeId>,
                                           skip: set<Pair>, n: nat)
    requires n <= |HOURS_FIELDS| && r.submittedName in ids && ids[r.submittedName] == id
    ensures FieldScan((o, FillEmployee(r, o, id, skip)), DropOf, n) == InSkip(FieldScan((o, r), DropOf, n), ids, skip)
  {
    if n > 0 {
      var f := HOURS_FIELDS[n - 1];
      FieldScanFilled(o, r, id, ids, skip, n - 1);
      InSkipConcat(FieldScan((o, r), DropOf, n - 1), DropOf(o, r, f), ids, skip);
      hide FillEmployee, InSkip;
      FieldFilled(o, r, id, ids, skip, f);
    }
  }

  lemma FieldFilled(o: ExtractedEmployee, r: ExtractedEmployee, id: EmployeeId, ids: map<string, EmployeeId>, skip: set<Pair>, f: HoursField)
    requires r.submittedName in ids && ids[r.submittedName] == id
    ensures InSkip(DropOf(o, r, f), ids, skip) == DropOf(o, FillEmployee(r, o, id, skip), f)
  {
    hide FillEmployee;
    FillGet(r, o, id, skip, f);
    if DropOf(o, r, f) != [] {
      assert DropOf(o, r, f)[..0] == [];
    }
  }

  ghost predicate FilledPairs(raw: seq<Paired>, filled: seq<Paired>, ids: map<string, EmployeeId>, skip: set<Pair>) {
    && |raw| == |filled|
    && forall k | 0 <= k < |raw| ::
         && raw[k].1.submittedName in ids
         && filled[k] == (raw[k].0, FillEmployee(raw[k].1, raw[k].0, ids[raw[k].1.submittedName], skip))
  }

  lemma {:induction false} PairScanFilled(raw: seq<Paired>, filled: seq<Paired>, ids: map<string, EmployeeId>, skip: set<Pair>)
    requires FilledPairs(raw, filled, ids, skip)
    ensures PairScan(filled, DropOf) == InSkip(PairScan(raw, DropOf), ids, skip)
  {
    if raw != [] {
      var n := |raw| - 1;
      PairScanFilled(raw[..n], filled[..n], ids, skip);
      var (o, r) := raw[n];
      FieldScanFilled(o, r, ids[r.submittedName], ids, skip, |HOURS_FIELDS|);
      InSkipConcat(PairScan(raw[..n], DropOf), FieldScan(raw[n], DropOf, |HOURS_FIELDS|), ids, skip);
    }
  }

  /**
    Detecting again after backfill finds exactly the raw drops whose employee and field are in the
    skip set, in the same order: backfill papers over every other drop.
   */
  lemma DetectAfterBackfill(extracted: Extracted, snapshot: Extracted, prior: seq<NameMatch>, matches: seq<NameMatch>, skip: set<Pair>)
    ensures FieldRegressions(snapshot, Backfilled(extracted, Some(snapshot), Some(prior), matches, skip), Some(prior), matches) ==
            InSkip(FieldRegressions(snapshot, extracted, Some(prior), matches), NameToId(matches), skip)
  {
    var ids := NameToId(matches);
    var o, r := SnapshotById(snapshot, Some(prior)), KeyedById(extracted, ids);
    var filled := Backfilled(extracted, Some(snapshot), Some(prior), matches, skip);
    var raw, after := PairByEmployeeId(snapshot, extracted, prior, matches), PairByEmployeeId(snapshot, filled, prior, matches);
    KeyedFilled(extracted, o, ids, skip);
    forall k | 0 <= k < |raw|
      ensures raw[k].1.submittedName in ids
      ensures after[k] == (raw[k].0, FillEmployee(raw[k].1, raw[k].0, ids[raw[k].1.submittedName], skip))
    {
      var id := CommonIds(o, r)[k];
      assert id in CommonIds(o, r);
      KeyedSound(extracted, ids, id);
    }
    PairScanFilled(raw, after, ids, skip);
  }
}
