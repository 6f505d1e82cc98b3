/** The money gate: process, or ask the client. It only ever adds reasons to ask. */
module Decide {
  import opened Prelude
  import opened Contracts
  import opened Validate

  datatype GateReason =
    | NoEmployees
    | NotOneForOne
    | UnresolvedName(name: string)
    | MissingRequired(name: string, field: HoursField)
    | Regressed(name: string, field: HoursField)
    | TwoNames(names: seq<string>)
    | DuplicateName(name: string)

  datatype Decision = Decision(process: bool, reasons: seq<GateReason>, unresolved: seq<string>)

  // ---------------------------------------------------------------------------------------------
  // Collisions
  // ---------------------------------------------------------------------------------------------

  /** Matched ids in order of first appearance. */
  function IdOrder(matches: seq<NameMatch>): seq<EmployeeId> {
    if matches == [] then []
    else
      var m := matches[|matches| - 1];
      var before := IdOrder(matches[..|matches| - 1]);
      if m.matched.Some? && m.matched.value !in before then before + [m.matched.value] else before
  }

  /** The distinct submitted names matched to an id, in order of first appearance. */
  function NamesOf(matches: seq<NameMatch>, id: EmployeeId): seq<string> {
    if matches == [] then []
    else
      var m := matches[|matches| - 1];
      var before := NamesOf(matches[..|matches| - 1], id);
      if m.matched == Some(id) && m.submittedName !in before then before + [m.submittedName] else before
  }

  function TwoNameReasons(ids: seq<EmployeeId>, matches: seq<NameMatch>): seq<GateReason> {
    if ids == [] then []
    else
      var id := ids[|ids| - 1];
      var before := TwoNameReasons(ids[..|ids| - 1], matches);
      if |NamesOf(matches, id)| > 1 then before + [TwoNames(NamesOf(matches, id))] else before
  }

  predicate Seen(matches: seq<NameMatch>, name: string) {
    exists m <- matches :: m.submittedName == name
  }

  /** One reason per repeated name, where its first repetition stands. */
  function DuplicateReasons(matches: seq<NameMatch>): seq<GateReason> {
    if matches == [] then []
    else
      var name := matches[|matches| - 1].submittedName;
      var earlier := matches[..|matches| - 1];
      var before := DuplicateReasons(earlier);
      if Seen(earlier, name) && DuplicateName(name) !in before then before + [DuplicateName(name)] else before
  }

  function CollisionReasons(matches: seq<NameMatch>): seq<GateReason> {
    TwoNameReasons(IdOrder(matches), matches) + DuplicateReasons(matches)
  }

  method CheckOneToOne(matches: seq<NameMatch>) returns (reasons: seq<GateReason>)
    ensures reasons == CollisionReasons(matches)
  {
    var order, byEmployee := GroupByEmployee(matches);
    reasons := [];
    for i := 0 to |order|
      invariant reasons == TwoNameReasons(order[..i], matches)
    {
      assert order[..i + 1][..i] == order[..i];
      assert order[i] in order;
      var names := byEmployee[order[i]];
      if |names| > 1 {
        reasons := reasons + [TwoNames(names)];
      }
    }
    assert order[..|order|] == order;
    var duplicates := FindDuplicates(matches);
    reasons := reasons + duplicates;
  }

  /** The insertion-ordered mapping from employee to distinct submitted names. */
  method GroupByEmployee(matches: seq<NameMatch>) returns (order: seq<EmployeeId>, byEmployee: map<EmployeeId, seq<string>>)
    ensures order == IdOrder(matches)
    ensures forall id <- order :: id in byEmployee && byEmployee[id] == NamesOf(matches, id)
  {
    order, byEmployee := [], map[];
    for i := 0 to |matches|
      invariant order == IdOrder(matches[..i])
      invariant forall id :: id in byEmployee <==> id in order
      invariant forall id :: NamesOf(matches[..i], id) == if id in byEmployee then byEmployee[id] else []
    {
      assert matches[..i + 1][..i] == matches[..i];
      var m := matches[i];
      if m.matched.None? {
        continue;
      }
      var id := m.matched.value;
      if id !in byEmployee {
        order := order + [id];
        byEmployee := byEmployee[id := []];
      }
      if m.submittedName !in byEmployee[id] {
        byEmployee := byEmployee[id := byEmployee[id] + [m.submittedName]];
      }
    }
    assert matches[..|matches|] == matches;
  }

  method FindDuplicates(matches: seq<NameMatch>) returns (reasons: seq<GateReason>)
    ensures reasons == DuplicateReasons(matches)
  {
    reasons := [];
    var seen: set<string> := {};
    var flagged: set<string> := {};
    for i := 0 to |matches|
      invariant reasons == DuplicateReasons(matches[..i])
      invariant forall n :: n in seen <==> Seen(matches[..i], n)
      invariant forall n :: n in flagged <==> DuplicateName(n) in reasons
    {
      assert matches[..i + 1][..i] == matches[..i];
      SeenStep(matches, i);
      var name := matches[i].submittedName;
      if name in seen && name !in flagged {
        reasons := reasons + [DuplicateName(name)];
        flagged := flagged + {name};
      }
      seen := seen + {name};
    }
    assert matches[..|matches|] == matches;
  }

  lemma SeenStep(matches: seq<NameMatch>, i: nat)
    requires i < |matches|
    ensures forall n :: Seen(matches[..i + 1], n) <==> Seen(matches[..i], n) || n == matches[i].submittedName
  {
    assert matches[..i + 1] == matches[..i] + [matches[i]];
    assert matches[i] in matches[..i + 1];
  }

  /** Every submitted name appears once, and no employee is matched twice. */
  ghost predicate OneToOne(matches: seq<NameMatch>) {
    forall i, j | 0 <= i < j < |matches| ::
      && matches[i].submittedName != matches[j].submittedName
      && (matches[i].matched.Some? ==> matches[i].matched != matches[j].matched)
  }

  ghost predicate NoRepeats<T>(s: seq<T>) {
    forall i, j | 0 <= i < j < |s| :: s[i] != s[j]
  }

  lemma {:induction false} NamesOfAre(matches: seq<NameMatch>, id: EmployeeId, name: string)
    ensures name in NamesOf(matches, id) <==> exists m <- matches :: m.matched == Some(id) && m.submittedName == name
    ensures NoRepeats(NamesOf(matches, id))
  {
    if matches != [] {
      var n := |matches| - 1;
      NamesOfAre(matches[..n], id, name);
      assert forall m <- matches :: m == matches[n] || m in matches[..n];
    }
  }

  lemma {:induction false} IdOrderHas(matches: seq<NameMatch>, id: EmployeeId)
    ensures id in IdOrder(matches) <==> exists m <- matches :: m.matched == Some(id)
  {
    if matches != [] {
      var n := |matches| - 1;
      IdOrderHas(matches[..n], id);
      assert forall m <- matches :: m == matches[n] || m in matches[..n];
    }
  }

  lemma {:induction false} TwoNameReasonsEmpty(ids: seq<EmployeeId>, matches: seq<NameMatch>)
    ensures TwoNameReasons(ids, matches) == [] <==> forall k | 0 <= k < |ids| :: |NamesOf(matches, ids[k])| <= 1
  {
    if ids != [] {
      var n := |ids| - 1;
      TwoNameReasonsEmpty(ids[..n], matches);
      if |NamesOf(matches, ids[n])| <= 1 && TwoNameReasons(ids[..n], matches) == [] {
        assert forall k | 0 <= k < n :: ids[..n][k] == ids[k];
      }
      if forall k | 0 <= k < |ids| :: |NamesOf(matches, ids[k])| <= 1 {
        assert forall k | 0 <= k < n :: ids[..n][k] == ids[k];
      }
    }
  }

  ghost predicate DistinctNames(matches: seq<NameMatch>) {
    forall i, j | 0 <= i < j < |matches| :: matches[i].submittedName != matches[j].submittedName
  }

  lemma DistinctStep(matches: seq<NameMatch>, n: nat)
    requires |matches| == n + 1
    ensures DistinctNames(matches) <==> DistinctNames(matches[..n]) && !Seen(matches[..n], matches[n].submittedName)
  {
    if Seen(matches[..n], matches[n].submittedName) {
      var m :| m in matches[..n] && m.submittedName == matches[n].submittedName;
      var k :| 0 <= k < n && matches[k] == m;
      assert matches[k].submittedName == matches[n].submittedName;
    } else {
      forall k | 0 <= k < n ensures matches[k].submittedName != matches[n].submittedName {
        assert matches[k] in matches[..n];
      }
      if DistinctNames(matches[..n]) {
        assert forall k | 0 <= k < n :: matches[..n][k] == matches[k];
      }
    }
    if DistinctNames(matches) {
      assert forall k | 0 <= k < n :: matches[..n][k] == matches[k];
    }
  }

  lemma {:induction false} DuplicateReasonsEmpty(matches: seq<NameMatch>)
    ensures DuplicateReasons(matches) == [] <==> DistinctNames(matches)
  {
    if matches != [] {
      DuplicateReasonsEmpty(matches[..|matches| - 1]);
      DistinctStep(matches, |matches| - 1);
    }
  }

  /** The run-level check is silent exactly when names and employees correspond one to one. */
  lemma CollisionFreeExactly(matches: seq<NameMatch>)
    ensures CollisionReasons(matches) == [] <==> OneToOne(matches)
  {
    DuplicateReasonsEmpty(matches);
    TwoNameReasonsEmpty(IdOrder(matches), matches);
    if CollisionReasons(matches) == [] {
      forall i, j | 0 <= i < j < |matches| && matches[i].matched.Some?
        ensures matches[i].matched != matches[j].matched
      {
        if matches[i].matched == matches[j].matched {
          TwoNamesCollide(matches, i, j);
          assert matches[i] in matches;
          IdOrderHas(matches, matches[i].matched.value);
          assert false;
        }
      }
    }
    if OneToOne(matches) {
      var ids := IdOrder(matches);
      forall k | 0 <= k < |ids| ensures |NamesOf(matches, ids[k])| <= 1 {
        if |NamesOf(matches, ids[k])| > 1 {
          NamesComeApart(matches, ids[k]);
          assert false;
        }
      }
    }
  }

  lemma TwoNamesCollide(matches: seq<NameMatch>, i: nat, j: nat)
    requires i < j < |matches| && matches[i].matched.Some? && matches[i].matched == matches[j].matched
    requires matches[i].submittedName != matches[j].submittedName
    ensures |NamesOf(matches, matches[i].matched.value)| > 1
  {
    var id := matches[i].matched.value;
    assert matches[i] in matches && matches[j] in matches;
    NamesOfAre(matches, id, matches[i].submittedName);
    NamesOfAre(matches, id, matches[j].submittedName);
  }

  lemma NamesComeApart(matches: seq<NameMatch>, id: EmployeeId)
    requires |NamesOf(matches, id)| > 1
    ensures !OneToOne(matches)
  {
    var names := NamesOf(matches, id);
    NamesOfAre(matches, id, names[0]);
    NamesOfAre(matches, id, names[1]);
    assert names[0] in names && names[1] in names;
    var a :| a in matches && a.matched == Some(id) && a.submittedName == names[0];
    var b :| b in matches && b.matched == Some(id) && b.submittedName == names[1];
    var i :| 0 <= i < |matches| && matches[i] == a;
    var j :| 0 <= j < |matches| && matches[j] == b;
    assert names[0] != names[1];
    if i < j {
      assert matches[i].matched == matches[j].matched;
    } else {
      assert matches[j].matched == matches[i].matched;
    }
  }

  // ---------------------------------------------------------------------------------------------
  // The gate
  // ---------------------------------------------------------------------------------------------

  function MatchNames(matches: seq<NameMatch>): (names: seq<string>)
    ensures |names| == |matches| && forall i | 0 <= i < |matches| :: names[i] == matches[i].submittedName
  {
    seq(|matches|, i requires 0 <= i < |matches| => matches[i].submittedName)
  }

  function UnresolvedReasons(matches: seq<NameMatch>): seq<GateReason> {
    if matches == [] then []
    else
      var m := matches[|matches| - 1];
      var before := UnresolvedReasons(matches[..|matches| - 1]);
      if m.resolved then before else before + [UnresolvedName(m.submittedName)]
  }

  function UnresolvedNames(matches: seq<NameMatch>): seq<string> {
    if matches == [] then []
    else
      var m := matches[|matches| - 1];
      var before := UnresolvedNames(matches[..|matches| - 1]);
      if m.resolved || m.submittedName in before then before else before + [m.submittedName]
  }

  function IssueReasons(issues: seq<ValidationIssue>, kind: IssueKind): seq<GateReason> {
    if issues == [] then []
    else
      var i := issues[|issues| - 1];
      var before := IssueReasons(issues[..|issues| - 1], kind);
      if i.kind != kind then before
      else before + [if kind.MissingField? then MissingRequired(i.submittedName, i.field) else Regressed(i.submittedName, i.field)]
  }

  function GateReasons(extracted: Extracted, matches: seq<NameMatch>, issues: seq<ValidationIssue>): seq<GateReason> {
    (if extracted == [] then [NoEmployees] else [])
    + (if extracted != [] && multiset(Names(extracted)) != multiset(MatchNames(matches)) then [NotOneForOne] else [])
    + UnresolvedReasons(matches)
    + IssueReasons(issues, MissingField)
    + IssueReasons(issues, FieldRegression)
    + CollisionReasons(matches)
  }

  function DecisionFor(extracted: Extracted, matches: seq<NameMatch>, issues: seq<ValidationIssue>): Decision {
    var reasons := GateReasons(extracted, matches, issues);
    Decision(reasons == [], reasons, UnresolvedNames(matches))
  }

  method Decide(extracted: Extracted, matches: seq<NameMatch>, issues: seq<ValidationIssue>) returns (d: Decision)
    ensures d == DecisionFor(extracted, matches, issues)
  {
    var reasons: seq<GateReason> := [];
    var unresolved: seq<string> := [];
    if |extracted| == 0 {
      reasons := reasons + [NoEmployees];
    }
    if |extracted| != 0 && multiset(Names(extracted)) != multiset(MatchNames(matches)) {
      reasons := reasons + [NotOneForOne];
    }
    var names: seq<GateReason> := [];
    for i := 0 to |matches|
      invariant names == UnresolvedReasons(matches[..i])
      invariant unresolved == UnresolvedNames(matches[..i])
    {
      assert matches[..i + 1][..i] == matches[..i];
      if !matches[i].resolved {
        if matches[i].submittedName !in unresolved {
          unresolved := unresolved + [matches[i].submittedName];
        }
        names := names + [UnresolvedName(matches[i].submittedName)];
      }
    }
    assert matches[..|matches|] == matches;
    reasons := reasons + names;
    reasons := reasons + IssueReasons(issues, MissingField);
    reasons := reasons + IssueReasons(issues, FieldRegression);
    var collisions := CheckOneToOne(matches);
    reasons := reasons + collisions;
    d := Decision(|reasons| == 0, reasons, unresolved);
  }

  lemma {:induction false} NoUnresolvedReasons(matches: seq<NameMatch>)
    ensures UnresolvedReasons(matches) == [] <==> forall m <- matches :: m.resolved
  {
    if matches != [] {
      NoUnresolvedReasons(matches[..|matches| - 1]);
      assert forall m <- matches :: m == matches[|matches| - 1] || m in matches[..|matches| - 1];
    }
  }

  lemma {:induction false} NoIssueReasons(issues: seq<ValidationIssue>)
    ensures IssueReasons(issues, MissingField) == [] && IssueReasons(issues, FieldRegression) == [] <==> issues == []
  {
    if issues != [] {
      NoIssueReasons(issues[..|issues| - 1]);
    }
  }

  /**
    The gate says process exactly when there are employees, one resolved match for each of
    them, no name or employee twice, and not a single validation issue.
   */
  lemma ProcessExactly(extracted: Extracted, matches: seq<NameMatch>, issues: seq<ValidationIssue>)
    ensures DecisionFor(extracted, matches, issues).process <==>
            && extracted != []
            && multiset(Names(extracted)) == multiset(MatchNames(matches))
            && (forall m <- matches :: m.resolved)
            && OneToOne(matches)
            && issues == []
  {
    NoUnresolvedReasons(matches);
    NoIssueReasons(issues);
    CollisionFreeExactly(matches);
  }

  // ---------------------------------------------------------------------------------------------
  // What the reasons say
  // ---------------------------------------------------------------------------------------------

  lemma {:induction false} UnresolvedAre(matches: seq<NameMatch>, name: string)
    ensures UnresolvedName(name) in UnresolvedReasons(matches) <==> exists m <- matches :: !m.resolved && m.submittedName == name
    ensures name in UnresolvedNames(matches) <==> exists m <- matches :: !m.resolved && m.submittedName == name
    ensures NoRepeats(UnresolvedNames(matches))
    ensures forall r <- UnresolvedReasons(matches) :: r.UnresolvedName?
  {
    if matches != [] {
      var n := |matches| - 1;
      UnresolvedAre(matches[..n], name);
      assert forall m <- matches :: m == matches[n] || m in matches[..n];
    }
  }

  lemma {:induction false} IssueReasonsAre(issues: seq<ValidationIssue>, kind: IssueKind, name: string, field: HoursField)
    ensures (if kind.MissingField? then MissingRequired(name, field) else Regressed(name, field)) in IssueReasons(issues, kind) <==>
            ValidationIssue(kind, name, field) in issues
    ensures forall r <- IssueReasons(issues, kind) :: if kind.MissingField? then r.MissingRequired? else r.Regressed?
  {
    if issues != [] {
      var n := |issues| - 1;
      IssueReasonsAre(issues[..n], kind, name, field);
      assert forall i <- issues :: i == issues[n] || i in issues[..n];
    }
  }

  ghost predicate Repeated(matches: seq<NameMatch>, name: string) {
    exists i, j :: 0 <= i < j < |matches| && matches[i].submittedName == name && matches[j].submittedName == name
  }

  lemma {:induction false} DuplicatesAre(matches: seq<NameMatch>, name: string)
    ensures DuplicateName(name) in DuplicateReasons(matches) <==> Repeated(matches, name)
    ensures forall r <- DuplicateReasons(matches) :: r.DuplicateName?
  {
    if matches != [] {
      var n := |matches| - 1;
      DuplicatesAre(matches[..n], name);
      RepeatedStep(matches, n, name);
    }
  }

  lemma RepeatedStep(matches: seq<NameMatch>, n: nat, name: string)
    requires |matches| == n + 1
    ensures Repeated(matches, name) <==> Repeated(matches[..n], name) || (matches[n].submittedName == name && Seen(matches[..n], name))
  {
    if Repeated(matches, name) {
      var i, j :| 0 <= i < j < |matches| && matches[i].submittedName == name && matches[j].submittedName == name;
      assert matches[..n][i] == matches[i] && matches[i] in matches[..n];
      if j < n {
        assert matches[..n][j] == matches[j];
      }
    }
    if Repeated(matches[..n], name) {
      var i, j :| 0 <= i < j < n && matches[..n][i].submittedName == name && matches[..n][j].submittedName == name;
      assert matches[i].submittedName == name && matches[j].submittedName == name;
    }
    if matches[n].submittedName == name && Seen(matches[..n], name) {
      var m :| m in matches[..n] && m.submittedName == name;
      var i :| 0 <= i < n && matches[i] == m;
      assert matches[i].submittedName == name && matches[n].submittedName == name;
    }
  }

  /** The list holds each name submitted for the employee once, and there are at least two. */
  ghost predicate NamesFor(matches: seq<NameMatch>, id: EmployeeId, names: seq<string>) {
    && |names| > 1 && NoRepeats(names)
    && forall name :: name in names <==> exists m <- matches :: m.matched == Some(id) && m.submittedName == name
  }

  lemma {:induction false} TwoNamesAre(ids: seq<EmployeeId>, matches: seq<NameMatch>, r: GateReason)
    ensures r in TwoNameReasons(ids, matches) <==> exists id <- ids :: |NamesOf(matches, id)| > 1 && r == TwoNames(NamesOf(matches, id))
  {
    if ids != [] {
      var n := |ids| - 1;
      TwoNamesAre(ids[..n], matches, r);
      assert ids[n] in ids && forall id :: id in ids <==> id == ids[n] || id in ids[..n];
    }
  }

  lemma NamesForIs(matches: seq<NameMatch>, id: EmployeeId)
    requires |NamesOf(matches, id)| > 1
    ensures NamesFor(matches, id, NamesOf(matches, id))
  {
    NamesOfAre(matches, id, "");
    forall name ensures name in NamesOf(matches, id) <==> exists m <- matches :: m.matched == Some(id) && m.submittedName == name {
      NamesOfAre(matches, id, name);
    }
  }

  /** An employee under two names is named in one reason, which lists every name submitted for it. */
  lemma TwoNamesAreListed(matches: seq<NameMatch>, i: nat, j: nat)
    requires i < j < |matches| && matches[i].matched.Some? && matches[i].matched == matches[j].matched
    requires matches[i].submittedName != matches[j].submittedName
    ensures exists names :: TwoNames(names) in CollisionReasons(matches) && NamesFor(matches, matches[i].matched.value, names)
  {
    var id := matches[i].matched.value;
    TwoNamesCollide(matches, i, j);
    assert matches[i] in matches;
    IdOrderHas(matches, id);
    TwoNamesAre(IdOrder(matches), matches, TwoNames(NamesOf(matches, id)));
    NamesForIs(matches, id);
  }

  /** What the gate found, in its own terms. */
  ghost predicate Holds(reason: GateReason, extracted: Extracted, matches: seq<NameMatch>, issues: seq<ValidationIssue>) {
    match reason
    case NoEmployees => extracted == []
    case NotOneForOne => extracted != [] && multiset(Names(extracted)) != multiset(MatchNames(matches))
    case UnresolvedName(name) => exists m <- matches :: !m.resolved && m.submittedName == name
    case MissingRequired(name, field) => ValidationIssue(MissingField, name, field) in issues
    case Regressed(name, field) => ValidationIssue(FieldRegression, name, field) in issues
    case TwoNames(names) => exists id :: NamesFor(matches, id, names)
    case DuplicateName(name) => Repeated(matches, name)
  }

  /**
    Every reason given holds, and every reason that holds is given: for an employee under two names it
    is one list of them all.
   */
  lemma ReasonsExactly(extracted: Extracted, matches: seq<NameMatch>, issues: seq<ValidationIssue>, reason: GateReason)
    ensures var reasons := DecisionFor(extracted, matches, issues).reasons;
      && (reason in reasons ==> Holds(reason, extracted, matches, issues))
      && (Holds(reason, extracted, matches, issues) && !reason.TwoNames? ==> reason in reasons)
  {
    hide UnresolvedReasons, IssueReasons, TwoNameReasons, DuplicateReasons, UnresolvedNames, IdOrder, NamesOf, NamesFor, Repeated, NoRepeats;
    UnresolvedAre(matches, if reason.UnresolvedName? then reason.name else "");
    var (who, field) := match reason case MissingRequired(n, f) => (n, f) case Regressed(n, f) => (n, f) case _ => ("", Regular);
    IssueReasonsAre(issues, MissingField, who, field);
    IssueReasonsAre(issues, FieldRegression, who, field);
    TwoNamesAre(IdOrder(matches), matches, reason);
    DuplicatesAre(matches, if reason.DuplicateName? then reason.name else "");
    if reason in TwoNameReasons(IdOrder(matches), matches) {
      var id :| id in IdOrder(matches) && |NamesOf(matches, id)| > 1 && reason == TwoNames(NamesOf(matches, id));
      NamesForIs(matches, id);
    }
  }

  /** The names the clarification asks about are those of the unresolved matches, each once. */
  lemma UnresolvedNamesExactly(extracted: Extracted, matches: seq<NameMatch>, issues: seq<ValidationIssue>, name: string)
    ensures var unresolved := DecisionFor(extracted, matches, issues).unresolved;
      && (name in unresolved <==> exists m <- matches :: !m.resolved && m.submittedName == name)
      && NoRepeats(unresolved)
  {
    UnresolvedAre(matches, name);
  }
}
