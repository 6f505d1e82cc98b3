/** Field validation, the shared employee pairing, and the two cross-round hours detectors. */
module Validate {
  import opened Prelude
  import opened Contracts

  datatype RawFieldDrop = RawFieldDrop(submittedName: string, field: HoursField, original: Hours, resumed: Option<Hours>)
  datatype HoursChange = HoursChange(submittedName: string, field: HoursField, original: Hours, resumed: Hours)

  datatype IssueKind = MissingField | FieldRegression
  datatype ValidationIssue = ValidationIssue(kind: IssueKind, submittedName: string, field: HoursField)

  /** An employee's hours field: the key of every cross-round answer. */
  datatype Pair = Pair(id: EmployeeId, field: HoursField)

  predicate IsPaid(v: Option<Hours>) {
    v.Some? && v.value > 0.0
  }

  // ---------------------------------------------------------------------------------------------
  // Identity maps
  // ---------------------------------------------------------------------------------------------

  /** Submitted name to employee id over the resolved matches; a later match wins. */
  function NameToId(matches: seq<NameMatch>): map<string, EmployeeId> {
    if matches == [] then map[]
    else
      var m := matches[|matches| - 1];
      var before := NameToId(matches[..|matches| - 1]);
      if m.resolved then before[m.submittedName := m.matched.value] else before
  }

  /** Employee id to extracted employee; the last employee with an id wins. */
  function KeyedById(extracted: Extracted, ids: map<string, EmployeeId>): map<EmployeeId, ExtractedEmployee> {
    if extracted == [] then map[]
    else
      var e := extracted[|extracted| - 1];
      var before := KeyedById(extracted[..|extracted| - 1], ids);
      if e.submittedName in ids then before[ids[e.submittedName] := e] else before
  }

  method IdKeyed(extracted: Extracted, matches: seq<NameMatch>) returns (keyed: map<EmployeeId, ExtractedEmployee>)
    ensures keyed == KeyedById(extracted, NameToId(matches))
  {
    var ids: map<string, EmployeeId> := map[];
    for i := 0 to |matches|
      invariant ids == NameToId(matches[..i])
    {
      assert matches[..i + 1][..i] == matches[..i];
      if matches[i].resolved {
        ids := ids[matches[i].submittedName := matches[i].matched.value];
      }
    }
    assert matches[..|matches|] == matches;
    keyed := map[];
    for i := 0 to |extracted|
      invariant keyed == KeyedById(extracted[..i], ids)
    {
      assert extracted[..i + 1][..i] == extracted[..i];
      if extracted[i].submittedName in ids {
        keyed := keyed[ids[extracted[i].submittedName] := extracted[i]];
      }
    }
    assert extracted[..|extracted|] == extracted;
  }

  /** The last match that resolved the name resolved it to this employee. */
  ghost predicate LastMeans(matches: seq<NameMatch>, name: string, id: EmployeeId) {
    exists k :: 0 <= k < |matches| && matches[k].submittedName == name && matches[k].matched == Some(id) &&
      forall j | k < j < |matches| && matches[j].submittedName == name :: !matches[j].resolved
  }

  ghost predicate NeverResolved(matches: seq<NameMatch>, name: string) {
    forall m <- matches | m.submittedName == name :: !m.resolved
  }

  /** The map leads a name to the employee of its last resolved match, and holds no other name. */
  lemma {:induction false} NameToIdMeans(matches: seq<NameMatch>, name: string, id: EmployeeId)
    ensures name in NameToId(matches) && NameToId(matches)[name] == id <==> LastMeans(matches, name, id)
    ensures name !in NameToId(matches) <==> NeverResolved(matches, name)
  {
    if matches != [] {
      var n := |matches| - 1;
      NameToIdMeans(matches[..n], name, id);
      LastMeansStep(matches, n, name, id);
      assert forall m <- matches :: m == matches[n] || m in matches[..n];
    }
  }

  lemma LastMeansStep(matches: seq<NameMatch>, n: nat, name: string, id: EmployeeId)
    requires |matches| == n + 1
    ensures LastMeans(matches, name, id) <==>
            if matches[n].submittedName == name && matches[n].resolved then matches[n].matched == Some(id)
            else LastMeans(matches[..n], name, id)
  {
    if matches[n].submittedName == name && matches[n].resolved {
      if matches[n].matched == Some(id) {
        assert LastMeans(matches, name, id);
      }
    } else {
      if LastMeans(matches[..n], name, id) {
        var k :| 0 <= k < n && matches[..n][k].submittedName == name && matches[..n][k].matched == Some(id) &&
          forall j | k < j < n && matches[..n][j].submittedName == name :: !matches[..n][j].resolved;
        assert matches[k].submittedName == name;
        assert forall j | k < j < n :: matches[..n][j] == matches[j];
      }
      if LastMeans(matches, name, id) {
        var k :| 0 <= k < |matches| && matches[k].submittedName == name && matches[k].matched == Some(id) &&
          forall j | k < j < |matches| && matches[j].submittedName == name :: !matches[j].resolved;
        assert k < n && matches[..n][k] == matches[k];
        assert forall j | k < j < n :: matches[..n][j] == matches[j];
      }
    }
  }

  /** Over two lists of matches the later list decides for the names it resolves. */
  lemma {:induction false} LaterListDecides(a: seq<NameMatch>, b: seq<NameMatch>, name: string)
    ensures var both, later, earlier := NameToId(a + b), NameToId(b), NameToId(a);
      && (name in later ==> name in both && both[name] == later[name])
      && (name !in later ==> (name in both <==> name in earlier) && (name in both ==> both[name] == earlier[name]))
  {
    if b == [] {
      assert a + b == a;
    } else {
      var n := |b| - 1;
      assert (a + b)[..|a + b| - 1] == a + b[..n];
      LaterListDecides(a, b[..n], name);
    }
  }

  /** A keyed employee is one of the extracted, and its own name maps to its key. */
  lemma {:induction false} KeyedSound(extracted: Extracted, ids: map<string, EmployeeId>, id: EmployeeId)
    requires id in KeyedById(extracted, ids)
    ensures var e := KeyedById(extracted, ids)[id]; e in extracted && e.submittedName in ids && ids[e.submittedName] == id
  {
    var e := extracted[|extracted| - 1];
    if !(e.submittedName in ids && ids[e.submittedName] == id) {
      KeyedSound(extracted[..|extracted| - 1], ids, id);
    }
  }

  /** Every extracted employee whose name maps to an id is keyed, and is the keyed one unless a later one shares its id. */
  lemma {:induction false} KeyedComplete(extracted: Extracted, ids: map<string, EmployeeId>, i: nat)
    requires i < |extracted| && extracted[i].submittedName in ids
    ensures ids[extracted[i].submittedName] in KeyedById(extracted, ids)
    ensures (forall j | i < j < |extracted| ::
               extracted[j].submittedName in ids ==> ids[extracted[j].submittedName] != ids[extracted[i].submittedName]) ==>
              KeyedById(extracted, ids)[ids[extracted[i].submittedName]] == extracted[i]
  {
    var n := |extracted| - 1;
    if i < n {
      KeyedComplete(extracted[..n], ids, i);
    }
  }

  // ---------------------------------------------------------------------------------------------
  // Pairing across the round boundary
  // ---------------------------------------------------------------------------------------------

  predicate IsLeast(x: EmployeeId, s: set<EmployeeId>) {
    x in s && forall y <- s :: x <= y
  }

  lemma {:induction false} HasLeast(s: set<EmployeeId>)
    requires s != {}
    ensures exists x :: IsLeast(x, s)
  {
    var x :| x in s;
    var rest := s - {x};
    if rest == {} {
      assert s == {x};
      assert IsLeast(x, s);
    } else {
      HasLeast(rest);
      var m :| IsLeast(m, rest);
      assert s == rest + {x};
      assert IsLeast(if m <= x then m else x, s);
    }
  }

  /** The ids in the order of their text. */
  function SortedIds(s: set<EmployeeId>): (ids: seq<EmployeeId>)
    ensures forall x :: x in ids <==> x in s
  {
    if s == {} then []
    else
      var x := Least(s);
      [x] + SortedIds(s - {x})
  }

  function Least(s: set<EmployeeId>): (x: EmployeeId)
    requires s != {}
    ensures IsLeast(x, s)
  {
    HasLeast(s);
    var x :| IsLeast(x, s);
    x
  }

  lemma {:induction false} SortedAscending(s: set<EmployeeId>, i: nat, j: nat)
    requires i < j < |SortedIds(s)|
    ensures SortedIds(s)[i] < SortedIds(s)[j]
  {
    var x := Least(s);
    var rest := SortedIds(s - {x});
    if i == 0 {
      assert rest[j - 1] in rest;
    } else {
      SortedAscending(s - {x}, i - 1, j - 1);
    }
  }

  type Paired = (ExtractedEmployee, ExtractedEmployee)

  function PairsOf(ids: seq<EmployeeId>, original: map<EmployeeId, ExtractedEmployee>, resumed: map<EmployeeId, ExtractedEmployee>)
    : (pairs: seq<Paired>)
    requires forall id <- ids :: id in original && id in resumed
    ensures |pairs| == |ids|
    ensures forall k | 0 <= k < |ids| :: pairs[k] == (original[ids[k]], resumed[ids[k]])
  {
    seq(|ids|, k requires 0 <= k < |ids| => (original[ids[k]], resumed[ids[k]]))
  }

  function CommonIds(original: map<EmployeeId, ExtractedEmployee>, resumed: map<EmployeeId, ExtractedEmployee>): (ids: seq<EmployeeId>)
    ensures forall id :: id in ids <==> id in original && id in resumed
  {
    SortedIds(original.Keys * resumed.Keys)
  }

  /** The same person on both sides of the round boundary, keyed by employee id, in id order. */
  function PairByEmployeeId(original: Extracted, resumed: Extracted, prior: seq<NameMatch>, current: seq<NameMatch>): seq<Paired> {
    var o, r := KeyedById(original, NameToId(prior)), KeyedById(resumed, NameToId(current));
    PairsOf(CommonIds(o, r), o, r)
  }

  // ---------------------------------------------------------------------------------------------
  // The two detectors over one pairing
  // ---------------------------------------------------------------------------------------------

  function DropOf(o: ExtractedEmployee, r: ExtractedEmployee, f: HoursField): seq<RawFieldDrop> {
    if IsPaid(o.Get(f)) && !IsPaid(r.Get(f)) then [RawFieldDrop(r.submittedName, f, o.Get(f).value, r.Get(f))] else []
  }

  function ChangeOf(o: ExtractedEmployee, r: ExtractedEmployee, f: HoursField): seq<HoursChange> {
    if IsPaid(o.Get(f)) && IsPaid(r.Get(f)) && o.Get(f).value != r.Get(f).value
    then [HoursChange(r.submittedName, f, o.Get(f).value, r.Get(f).value)]
    else []
  }

  /** The findings over the first n hours fields of one pair. */
  function FieldScan<T>(p: Paired, find: (ExtractedEmployee, ExtractedEmployee, HoursField) -> seq<T>, n: nat): seq<T>
    requires n <= |HOURS_FIELDS|
  {
    if n == 0 then [] else FieldScan(p, find, n - 1) + find(p.0, p.1, HOURS_FIELDS[n - 1])
  }

  function PairScan<T>(pairs: seq<Paired>, find: (ExtractedEmployee, ExtractedEmployee, HoursField) -> seq<T>): seq<T> {
    if pairs == [] then []
    else PairScan(pairs[..|pairs| - 1], find) + FieldScan(pairs[|pairs| - 1], find, |HOURS_FIELDS|)
  }

  function FieldRegressions(original: Extracted, resumed: Extracted, prior: Option<seq<NameMatch>>, current: seq<NameMatch>)
    : seq<RawFieldDrop>
  {
    if prior.None? then [] else PairScan(PairByEmployeeId(original, resumed, prior.value, current), DropOf)
  }

  function HoursChanges(original: Extracted, resumed: Extracted, prior: Option<seq<NameMatch>>, current: seq<NameMatch>)
    : seq<HoursChange>
  {
    if prior.None? then [] else PairScan(PairByEmployeeId(original, resumed, prior.value, current), ChangeOf)
  }

  /** The dropped fields of one pair, in field order. */
  method DropsOf(pair: Paired) returns (found: seq<RawFieldDrop>)
    ensures found == FieldScan(pair, DropOf, |HOURS_FIELDS|)
  {
    found := [];
    for k := 0 to |HOURS_FIELDS|
      invariant found == FieldScan(pair, DropOf, k)
    {
      var f := HOURS_FIELDS[k];
      if IsPaid(pair.0.Get(f)) && !IsPaid(pair.1.Get(f)) {
        found := found + [RawFieldDrop(pair.1.submittedName, f, pair.0.Get(f).value, pair.1.Get(f))];
      }
    }
  }

  method DetectFieldRegression(original: Extracted, resumed: Extracted, prior: Option<seq<NameMatch>>, current: seq<NameMatch>)
    returns (drops: seq<RawFieldDrop>)
    ensures drops == FieldRegressions(original, resumed, prior, current)
  {
    hide FieldScan, KeyedById, NameToId;
    if prior.None? {
      return [];
    }
    var o := IdKeyed(original, prior.value);
    var r := IdKeyed(resumed, current);
    var pairs := PairsOf(CommonIds(o, r), o, r);
    drops := [];
    for i := 0 to |pairs|
      invariant drops == PairScan(pairs[..i], DropOf)
    {
      var found := DropsOf(pairs[i]);
      drops := drops + found;
      assert pairs[..i + 1][..i] == pairs[..i];
    }
    assert pairs[..|pairs|] == pairs;
  }

  /** The changed fields of one pair, in field order. */
  method ChangesOf(pair: Paired) returns (found: seq<HoursChange>)
    ensures found == FieldScan(pair, ChangeOf, |HOURS_FIELDS|)
  {
    found := [];
    for k := 0 to |HOURS_FIELDS|
      invariant found == FieldScan(pair, ChangeOf, k)
    {
      var f := HOURS_FIELDS[k];
      var was, now := pair.0.Get(f), pair.1.Get(f);
      if IsPaid(was) && IsPaid(now) && was.value != now.value {
        found := found + [HoursChange(pair.1.submittedName, f, was.value, now.value)];
      }
    }
  }

  method DetectHoursChanges(original: Extracted, resumed: Extracted, prior: Option<seq<NameMatch>>, current: seq<NameMatch>)
    returns (changes: seq<HoursChange>)
    ensures changes == HoursChanges(original, resumed, prior, current)
  {
    hide FieldScan, KeyedById, NameToId;
    if prior.None? {
      return [];
    }
    var o := IdKeyed(original, prior.value);
    var r := IdKeyed(resumed, current);
    var pairs := PairsOf(CommonIds(o, r), o, r);
    changes := [];
    for i := 0 to |pairs|
      invariant changes == PairScan(pairs[..i], ChangeOf)
    {
      var found := ChangesOf(pairs[i]);
      changes := changes + found;
      assert pairs[..i + 1][..i] == pairs[..i];
    }
    assert pairs[..|pairs|] == pairs;
  }

  lemma {:induction false} InFieldScan<T>(p: Paired, find: (ExtractedEmployee, ExtractedEmployee, HoursField) -> seq<T>, n: nat, x: T)
    requires n <= |HOURS_FIELDS|
    ensures x in FieldScan(p, find, n) <==> exists k :: 0 <= k < n && x in find(p.0, p.1, HOURS_FIELDS[k])
  {
    if n > 0 {
      InFieldScan(p, find, n - 1, x);
      if x in find(p.0, p.1, HOURS_FIELDS[n - 1]) {
        assert x in FieldScan(p, find, n);
      }
    }
  }

  /** A finding is reported exactly when some pair and some hours field give it. */
  lemma {:induction false} InPairScan<T>(pairs: seq<Paired>, find: (ExtractedEmployee, ExtractedEmployee, HoursField) -> seq<T>, x: T)
    ensures x in PairScan(pairs, find) <==> exists p: Paired, f: HoursField :: p in pairs && x in find(p.0, p.1, f)
  {
    if pairs != [] {
      var n := |pairs| - 1;
      InPairScan(pairs[..n], find, x);
      InFieldScan(pairs[n], find, |HOURS_FIELDS|, x);
      if exists p: Paired, f: HoursField :: p in pairs && x in find(p.0, p.1, f) {
        var p: Paired, f: HoursField :| p in pairs && x in find(p.0, p.1, f);
        AllFields(f);
        if p !in pairs[..n] {
          assert p == pairs[n];
        }
      }
      if x in FieldScan(pairs[n], find, |HOURS_FIELDS|) {
        var k :| 0 <= k < |HOURS_FIELDS| && x in find(pairs[n].0, pairs[n].1, HOURS_FIELDS[k]);
        assert pairs[n] in pairs;
      }
    }
  }

  /** A finding is made exactly when some person on both sides and some field give it. */
  lemma FoundForAPerson<T>(original: Extracted, resumed: Extracted, prior: seq<NameMatch>, current: seq<NameMatch>,
                           find: (ExtractedEmployee, ExtractedEmployee, HoursField) -> seq<T>, x: T)
    ensures var o, r := KeyedById(original, NameToId(prior)), KeyedById(resumed, NameToId(current));
      x in PairScan(PairByEmployeeId(original, resumed, prior, current), find) <==>
      exists id, f :: id in o && id in r && x in find(o[id], r[id], f)
  {
    hide KeyedById, NameToId;
    var o, r := KeyedById(original, NameToId(prior)), KeyedById(resumed, NameToId(current));
    var pairs := PairByEmployeeId(original, resumed, prior, current);
    var ids := CommonIds(o, r);
    InPairScan(pairs, find, x);
    if x in PairScan(pairs, find) {
      var p: Paired, f: HoursField :| p in pairs && x in find(p.0, p.1, f);
      var k :| 0 <= k < |pairs| && pairs[k] == p;
      assert ids[k] in ids;
    }
    if exists id, f :: id in o && id in r && x in find(o[id], r[id], f) {
      var id, f :| id in o && id in r && x in find(o[id], r[id], f);
      var k :| 0 <= k < |ids| && ids[k] == id;
      assert pairs[k] == (o[id], r[id]) && pairs[k] in pairs;
    }
  }

  /** The finding says of this pair what the two extractions say: paid before, not paid now. */
  ghost predicate Dropped(o: ExtractedEmployee, r: ExtractedEmployee, d: RawFieldDrop) {
    && o.Get(d.field) == Some(d.original) && d.original > 0.0
    && r.Get(d.field) == d.resumed && (d.resumed.Some? ==> d.resumed.value <= 0.0)
    && r.submittedName == d.submittedName
  }

  /** Paid before, paid now, and not the same. */
  ghost predicate Changed(o: ExtractedEmployee, r: ExtractedEmployee, c: HoursChange) {
    && o.Get(c.field) == Some(c.original) && r.Get(c.field) == Some(c.resumed)
    && c.original > 0.0 && c.resumed > 0.0 && c.original != c.resumed
    && r.submittedName == c.submittedName
  }

  lemma DropMeans(o: ExtractedEmployee, r: ExtractedEmployee, f: HoursField, d: RawFieldDrop)
    ensures d in DropOf(o, r, f) <==> f == d.field && Dropped(o, r, d)
  {
  }

  lemma ChangeMeans(o: ExtractedEmployee, r: ExtractedEmployee, f: HoursField, c: HoursChange)
    ensures c in ChangeOf(o, r, f) <==> f == c.field && Changed(o, r, c)
  {
  }

  /**
    The detector reports a field of an employee exactly when some person present on both sides
    was paid for it before and is not now.
   */
  lemma DropReported(original: Extracted, resumed: Extracted, prior: seq<NameMatch>, current: seq<NameMatch>, d: RawFieldDrop)
    ensures var o, r := KeyedById(original, NameToId(prior)), KeyedById(resumed, NameToId(current));
      d in FieldRegressions(original, resumed, Some(prior), current) <==>
      exists id :: id in o && id in r && Dropped(o[id], r[id], d)
  {
    FoundForAPerson(original, resumed, prior, current, DropOf, d);
    hide KeyedById, NameToId, PairScan, Dropped;
    var o, r := KeyedById(original, NameToId(prior)), KeyedById(resumed, NameToId(current));
    forall id, f | id in o && id in r ensures d in DropOf(o[id], r[id], f) <==> f == d.field && Dropped(o[id], r[id], d) {
      DropMeans(o[id], r[id], f, d);
    }
    if exists id :: id in o && id in r && Dropped(o[id], r[id], d) {
      var id :| id in o && id in r && Dropped(o[id], r[id], d);
      assert d in DropOf(o[id], r[id], d.field);
    }
  }

  /** The same for the changes: paid before, paid now, and not the same. */
  lemma ChangeReported(original: Extracted, resumed: Extracted, prior: seq<NameMatch>, current: seq<NameMatch>, c: HoursChange)
    ensures var o, r := KeyedById(original, NameToId(prior)), KeyedById(resumed, NameToId(current));
      c in HoursChanges(original, resumed, Some(prior), current) <==>
      exists id :: id in o && id in r && Changed(o[id], r[id], c)
  {
    FoundForAPerson(original, resumed, prior, current, ChangeOf, c);
    hide KeyedById, NameToId, PairScan, Changed;
    var o, r := KeyedById(original, NameToId(prior)), KeyedById(resumed, NameToId(current));
    forall id, f | id in o && id in r ensures c in ChangeOf(o[id], r[id], f) <==> f == c.field && Changed(o[id], r[id], c) {
      ChangeMeans(o[id], r[id], f, c);
    }
    if exists id :: id in o && id in r && Changed(o[id], r[id], c) {
      var id :| id in o && id in r && Changed(o[id], r[id], c);
      assert c in ChangeOf(o[id], r[id], c.field);
    }
  }

  /**
    Between them the two detectors miss no change to a paid value: for a person on both sides a paid
    field is as it was, or reported as a drop, or reported as a change.
   */
  lemma NoPaidChangeEscapes(original: Extracted, resumed: Extracted, prior: seq<NameMatch>, current: seq<NameMatch>,
                            id: EmployeeId, f: HoursField)
    requires id in KeyedById(original, NameToId(prior)) && id in KeyedById(resumed, NameToId(current))
    requires IsPaid(KeyedById(original, NameToId(prior))[id].Get(f))
    ensures var o, r := KeyedById(original, NameToId(prior))[id], KeyedById(resumed, NameToId(current))[id];
      || r.Get(f) == o.Get(f)
      || RawFieldDrop(r.submittedName, f, o.Get(f).value, r.Get(f)) in FieldRegressions(original, resumed, Some(prior), current)
      || (r.Get(f).Some? && HoursChange(r.submittedName, f, o.Get(f).value, r.Get(f).value)
            in HoursChanges(original, resumed, Some(prior), current))
  {
    hide FieldRegressions, HoursChanges, KeyedById, NameToId;
    var o, r := KeyedById(original, NameToId(prior))[id], KeyedById(resumed, NameToId(current))[id];
    if !IsPaid(r.Get(f)) {
      var d := RawFieldDrop(r.submittedName, f, o.Get(f).value, r.Get(f));
      assert Dropped(o, r, d);
      DropReported(original, resumed, prior, current, d);
    } else if r.Get(f) != o.Get(f) {
      var c := HoursChange(r.submittedName, f, o.Get(f).value, r.Get(f).value);
      assert Changed(o, r, c);
      ChangeReported(original, resumed, prior, current, c);
    }
  }

  // ---------------------------------------------------------------------------------------------
  // Validation
  // ---------------------------------------------------------------------------------------------

  /** The roster employee behind the first match for a name that is on the roster. */
  function EmployeeFor(name: string, matches: seq<NameMatch>, roster: Roster): Option<Employee> {
    if matches == [] then None
    else if matches[0].submittedName == name && matches[0].matched.Some? && EmployeeWithId(matches[0].matched.value, roster).Some?
    then EmployeeWithId(matches[0].matched.value, roster)
    else EmployeeFor(name, matches[1..], roster)
  }

  function EmployeeWithId(id: EmployeeId, employees: seq<Employee>): (e: Option<Employee>)
    ensures e.Some? ==> e.value in employees && e.value.id == id
    ensures e.None? ==> forall x <- employees :: x.id != id
  {
    if employees == [] then None
    else if employees[0].id == id then Some(employees[0])
    else EmployeeWithId(id, employees[1..])
  }

  /** Where every match of a name agrees, the employee found is the roster's employee with the matched id. */
  lemma {:induction false} EmployeeForIs(name: string, matches: seq<NameMatch>, roster: Roster, k: nat)
    requires k < |matches| && matches[k].submittedName == name
    requires forall m <- matches :: m.submittedName == name ==> m.matched == matches[k].matched
    ensures EmployeeFor(name, matches, roster) == if matches[k].matched.Some? then EmployeeWithId(matches[k].matched.value, roster) else None
  {
    assert matches[0] in matches;
    if matches[0].submittedName != name || matches[0].matched.None? || EmployeeWithId(matches[0].matched.value, roster).None? {
      if k > 0 {
        EmployeeForIs(name, matches[1..], roster, k - 1);
      } else {
        NobodyFor(name, matches[1..], roster);
      }
    }
  }

  lemma {:induction false} NobodyFor(name: string, matches: seq<NameMatch>, roster: Roster)
    requires forall m <- matches | m.submittedName == name && m.matched.Some? :: EmployeeWithId(m.matched.value, roster).None?
    ensures EmployeeFor(name, matches, roster) == None
  {
    if matches != [] {
      assert matches[0] in matches;
      NobodyFor(name, matches[1..], roster);
    }
  }

  function RegressionIssues(drops: seq<RawFieldDrop>, ids: map<string, EmployeeId>, suppressed: set<Pair>): seq<ValidationIssue> {
    if drops == [] then []
    else
      var d := drops[|drops| - 1];
      var before := RegressionIssues(drops[..|drops| - 1], ids, suppressed);
      if d.submittedName in ids && Pair(ids[d.submittedName], d.field) !in suppressed
      then before + [ValidationIssue(FieldRegression, d.submittedName, d.field)]
      else before
  }

  predicate AnyHours(e: ExtractedEmployee) {
    exists f <- HOURS_FIELDS :: IsPaid(e.Get(f))
  }

  /** Hourly and without any paid hours. */
  predicate LacksHours(e: ExtractedEmployee, matches: seq<NameMatch>, roster: Roster) {
    var who := EmployeeFor(e.submittedName, matches, roster);
    !AnyHours(e) && who.Some? && who.value.pay.Hourly?
  }

  /** Weekly over 40 or biweekly over 80 regular hours with no paid overtime. */
  predicate LacksOvertimeSplit(e: ExtractedEmployee, matches: seq<NameMatch>, roster: Roster) {
    var who := EmployeeFor(e.submittedName, matches, roster);
    && who.Some?
    && e.regular.Some?
    && !IsPaid(e.overtime)
    && ((who.value.payPeriods == 52 && e.regular.value > 40.0) || (who.value.payPeriods == 26 && e.regular.value > 80.0))
  }

  function MissingIssues(extracted: Extracted, field: HoursField, flagged: ExtractedEmployee -> bool): seq<ValidationIssue> {
    if extracted == [] then []
    else
      var e := extracted[|extracted| - 1];
      var before := MissingIssues(extracted[..|extracted| - 1], field, flagged);
      if flagged(e) then before + [ValidationIssue(MissingField, e.submittedName, field)] else before
  }

  function Issues(extracted: Extracted, roster: Roster, matches: seq<NameMatch>, suppressed: set<Pair>, drops: seq<RawFieldDrop>)
    : seq<ValidationIssue>
  {
    RegressionIssues(drops, NameToId(matches), suppressed)
    + MissingIssues(extracted, Regular, e => LacksHours(e, matches, roster))
    + MissingIssues(extracted, Overtime, e => LacksOvertimeSplit(e, matches, roster))
  }

  method Validate(extracted: Extracted, roster: Roster, matches: seq<NameMatch>, suppressed: set<Pair>, drops: seq<RawFieldDrop>)
    returns (issues: seq<ValidationIssue>)
    ensures issues == Issues(extracted, roster, matches, suppressed, drops)
  {
    issues := [];
    var ids := NameToId(matches);
    for i := 0 to |drops|
      invariant issues == RegressionIssues(drops[..i], ids, suppressed)
    {
      assert drops[..i + 1][..i] == drops[..i];
      var d := drops[i];
      if d.submittedName !in ids {
        continue;
      }
      if Pair(ids[d.submittedName], d.field) in suppressed {
        continue;
      }
      issues := issues + [ValidationIssue(FieldRegression, d.submittedName, d.field)];
    }
    assert drops[..|drops|] == drops;
    ghost var regressions := issues;
    ghost var lacksHours := (e: ExtractedEmployee) => LacksHours(e, matches, roster);
    for i := 0 to |extracted|
      invariant issues == regressions + MissingIssues(extracted[..i], Regular, lacksHours)
    {
      assert extracted[..i + 1][..i] == extracted[..i];
      if AnyHours(extracted[i]) {
        continue;
      }
      var who := EmployeeFor(extracted[i].submittedName, matches, roster);
      if who.Some? && who.value.pay.Hourly? {
        issues := issues + [ValidationIssue(MissingField, extracted[i].submittedName, Regular)];
      }
    }
    assert extracted[..|extracted|] == extracted;
    ghost var missing := issues;
    ghost var lacksSplit := (e: ExtractedEmployee) => LacksOvertimeSplit(e, matches, roster);
    for i := 0 to |extracted|
      invariant issues == missing + MissingIssues(extracted[..i], Overtime, lacksSplit)
    {
      assert extracted[..i + 1][..i] == extracted[..i];
      var e := extracted[i];
      var who := EmployeeFor(e.submittedName, matches, roster);
      if who.None? {
        continue;
      }
      if who.value.payPeriods == 52 && e.regular.Some? && e.regular.value > 40.0 && !IsPaid(e.overtime) {
        issues := issues + [ValidationIssue(MissingField, e.submittedName, Overtime)];
      } else if who.value.payPeriods == 26 && e.regular.Some? && e.regular.value > 80.0 && !IsPaid(e.overtime) {
        issues := issues + [ValidationIssue(MissingField, e.submittedName, Overtime)];
      }
    }
    assert extracted[..|extracted|] == extracted;
  }

  /** A reported drop becomes a gating issue exactly when its name resolves and its pair is not suppressed. */
  lemma {:induction false} RegressionRaised(drops: seq<RawFieldDrop>, ids: map<string, EmployeeId>, suppressed: set<Pair>, issue: ValidationIssue)
    ensures issue in RegressionIssues(drops, ids, suppressed) <==>
            issue.kind == FieldRegression &&
            exists d <- drops :: d.submittedName == issue.submittedName && d.field == issue.field &&
              d.submittedName in ids && Pair(ids[d.submittedName], d.field) !in suppressed
  {
    if drops != [] {
      RegressionRaised(drops[..|drops| - 1], ids, suppressed, issue);
      var d := drops[|drops| - 1];
      assert forall x <- drops :: x == d || x in drops[..|drops| - 1];
    }
  }

  lemma {:induction false} InMissingIssues(extracted: Extracted, field: HoursField, flagged: ExtractedEmployee -> bool, issue: ValidationIssue)
    ensures issue in MissingIssues(extracted, field, flagged) <==>
            issue.kind == MissingField && issue.field == field &&
            exists e <- extracted :: e.submittedName == issue.submittedName && flagged(e)
  {
    if extracted != [] {
      InMissingIssues(extracted[..|extracted| - 1], field, flagged, issue);
      var e := extracted[|extracted| - 1];
      assert forall x <- extracted :: x == e || x in extracted[..|extracted| - 1];
    }
  }

  /** An hourly employee paid for no field at all. */
  ghost predicate HourlyWithoutHours(e: ExtractedEmployee, matches: seq<NameMatch>, roster: Roster) {
    var who := EmployeeFor(e.submittedName, matches, roster);
    who.Some? && who.value.pay.Hourly? && forall f: HoursField :: !IsPaid(e.Get(f))
  }

  /** More regular hours than full time for the pay period, forty a week, and no paid overtime. */
  ghost predicate OverFullTimeWithoutSplit(e: ExtractedEmployee, matches: seq<NameMatch>, roster: Roster) {
    var who := EmployeeFor(e.submittedName, matches, roster);
    && who.Some? && !IsPaid(e.overtime) && e.regular.Some?
    && exists weeks :: 1 <= weeks <= 2 && who.value.payPeriods * weeks == 52 && e.regular.value > 40.0 * weeks as real
  }

  /**
    A missing-field issue is raised exactly for the hourly employees without any paid hours, on
    regular hours, and for the weekly and biweekly ones over full time without paid overtime, on
    overtime; on no other field.
   */
  lemma MissingRaised(extracted: Extracted, roster: Roster, matches: seq<NameMatch>, suppressed: set<Pair>, drops: seq<RawFieldDrop>,
                      issue: ValidationIssue)
    requires issue.kind == MissingField
    ensures issue in Issues(extracted, roster, matches, suppressed, drops) <==>
            exists e <- extracted :: e.submittedName == issue.submittedName &&
              match issue.field
              case Regular => HourlyWithoutHours(e, matches, roster)
              case Overtime => OverFullTimeWithoutSplit(e, matches, roster)
              case _ => false
  {
    hide EmployeeFor, MissingIssues, RegressionIssues;
    RegressionRaised(drops, NameToId(matches), suppressed, issue);
    InMissingIssues(extracted, Regular, e => LacksHours(e, matches, roster), issue);
    InMissingIssues(extracted, Overtime, e => LacksOvertimeSplit(e, matches, roster), issue);
    forall e: ExtractedEmployee
      ensures LacksHours(e, matches, roster) <==> HourlyWithoutHours(e, matches, roster)
      ensures LacksOvertimeSplit(e, matches, roster) <==> OverFullTimeWithoutSplit(e, matches, roster)
    {
      FlagsAgree(e, matches, roster);
    }
    hide LacksHours, LacksOvertimeSplit, HourlyWithoutHours, OverFullTimeWithoutSplit;
  }

  lemma FlagsAgree(e: ExtractedEmployee, matches: seq<NameMatch>, roster: Roster)
    ensures LacksHours(e, matches, roster) <==> HourlyWithoutHours(e, matches, roster)
    ensures LacksOvertimeSplit(e, matches, roster) <==> OverFullTimeWithoutSplit(e, matches, roster)
  {
    hide EmployeeFor;
    forall f: HoursField ensures f in HOURS_FIELDS {
      AllFields(f);
    }
    var who := EmployeeFor(e.submittedName, matches, roster);
    if who.Some? {
      assert who.value.payPeriods == 52 ==> who.value.payPeriods * 1 == 52;
      assert who.value.payPeriods == 26 ==> who.value.payPeriods * 2 == 52;
    }
  }
}
