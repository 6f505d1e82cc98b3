/**
  The deterministic resolver. `norm` stands for the name normaliser (case folding, NFC and
  whitespace), which is an arbitrary function of its text here.
*/
module ReconcileNames {
  import opened Prelude
  import opened Contracts

  type Normalizer = string -> string

  predicate ByFullName(norm: Normalizer, name: string, e: Employee) {
    norm(e.fullName) == norm(name)
  }

  predicate ByAlias(norm: Normalizer, name: string, e: Employee) {
    exists alias <- e.knownAliases :: norm(alias) == norm(name)
  }

  function ExactIds(norm: Normalizer, name: string, roster: Roster): set<EmployeeId> {
    set e | e in roster && ByFullName(norm, name, e) :: e.id
  }

  function AliasIds(norm: Normalizer, name: string, roster: Roster): set<EmployeeId> {
    set e | e in roster && ByAlias(norm, name, e) :: e.id
  }

  /** The distinct employees a name could mean, across both tiers. */
  function Candidates(norm: Normalizer, name: string, roster: Roster): set<EmployeeId> {
    ExactIds(norm, name, roster) + AliasIds(norm, name, roster)
  }

  lemma SingletonIs(s: set<EmployeeId>, x: EmployeeId)
    requires |s| == 1 && x in s
    ensures s == {x}
  {
    assert |s - {x}| == 0;
    assert s - {x} == {};
  }

  function TheOnly(s: set<EmployeeId>): (x: EmployeeId)
    requires |s| == 1
    ensures s == {x}
  {
    assert exists x :: x in s && s == {x} by {
      assert s != {};
      var x :| x in s;
      SingletonIs(s, x);
    }
    var x :| x in s && s == {x};
    x
  }

  /** A name resolves only when exactly one employee carries it, as a full name or as an alias. */
  function DeterministicMatch(norm: Normalizer, name: string, roster: Roster): Option<NameMatch> {
    var candidates := Candidates(norm, name, roster);
    if |candidates| != 1 then None
    else
      var id := TheOnly(candidates);
      if id in ExactIds(norm, name, roster) then Some(Match(name, Some(id), Exact, true))
      else Some(Match(name, Some(id), Alias, true))
  }

  function Unresolved(name: string): NameMatch {
    Match(name, None, NoSource, false)
  }

  function RosterIds(roster: Roster): set<EmployeeId> {
    set e | e in roster :: e.id
  }

  /** An operator's choice wins when it names a roster employee; anything else falls through to the resolver. */
  function ReconcileOne(norm: Normalizer, name: string, roster: Roster, overrides: map<string, IdText>): NameMatch {
    var chosen := if name in overrides then ParseId(overrides[name]) else None;
    if chosen.Some? && chosen.value in RosterIds(roster) then Match(name, chosen, Operator, true)
    else
      var found := DeterministicMatch(norm, name, roster);
      if found.Some? then found.value else Unresolved(name)
  }

  function Reconcile(norm: Normalizer, names: seq<string>, roster: Roster, overrides: map<string, IdText>): (r: seq<NameMatch>)
    ensures |r| == |names|
    ensures forall i | 0 <= i < |names| :: r[i] == ReconcileOne(norm, names[i], roster, overrides)
  {
    seq(|names|, i requires 0 <= i < |names| => ReconcileOne(norm, names[i], roster, overrides))
  }

  method ReconcileNames(norm: Normalizer, names: seq<string>, roster: Roster, overrides: map<string, IdText>)
    returns (results: seq<NameMatch>)
    ensures results == Reconcile(norm, names, roster, overrides)
  {
    hide DeterministicMatch, RosterIds;
    var rosterIds := RosterIds(roster);
    results := [];
    for i := 0 to |names|
      invariant |results| == i
      invariant forall k | 0 <= k < i :: results[k] == ReconcileOne(norm, names[k], roster, overrides)
    {
      var name := names[i];
      if name in overrides {
        var chosen := ParseId(overrides[name]);
        if chosen.Some? && chosen.value in rosterIds {
          results := results + [Match(name, chosen, Operator, true)];
          continue;
        }
      }
      var found := DeterministicMatch(norm, name, roster);
      results := results + [if found.Some? then found.value else Unresolved(name)];
    }
  }

  // ---------------------------------------------------------------------------------------------
  // What a resolution means
  // ---------------------------------------------------------------------------------------------

  /** Every candidate is on the roster. */
  lemma CandidatesOnRoster(norm: Normalizer, name: string, roster: Roster)
    ensures Candidates(norm, name, roster) <= RosterIds(roster)
  {
  }

  /** A resolved name always names a roster employee, whatever the overrides hold. */
  lemma ResolvedOnRoster(norm: Normalizer, name: string, roster: Roster, overrides: map<string, IdText>)
    ensures var m := ReconcileOne(norm, name, roster, overrides);
      m.submittedName == name && (m.resolved ==> m.matched.value in RosterIds(roster))
  {
    CandidatesOnRoster(norm, name, roster);
  }

  /**
    Without overrides a name resolves to an employee exactly when that employee is its only
    candidate; the source says whether the full name matched.
   */
  lemma ResolvesExactly(norm: Normalizer, name: string, roster: Roster, id: EmployeeId)
    ensures ReconcileOne(norm, name, roster, map[]).matched == Some(id) <==> Candidates(norm, name, roster) == {id}
    ensures Candidates(norm, name, roster) == {id} ==>
              ReconcileOne(norm, name, roster, map[]).source ==
              if exists e <- roster :: e.id == id && norm(e.fullName) == norm(name) then Exact else Alias
  {
    var c := Candidates(norm, name, roster);
    if |c| == 1 {
      var x := TheOnly(c);
      if c == {id} { assert id in c; }
    } else if c == {id} {
      assert false;
    }
  }

  /** The employee answers to the name, as full name or as alias. */
  predicate Bears(norm: Normalizer, name: string, e: Employee) {
    norm(e.fullName) == norm(name) || exists alias <- e.knownAliases :: norm(alias) == norm(name)
  }

  /**
    Without overrides a name resolves to an id exactly when some roster employee with that id bears
    it and no employee with another id does: neither an unknown name nor a shared one resolves.
   */
  lemma ResolvesToTheSoleBearer(norm: Normalizer, name: string, roster: Roster, id: EmployeeId)
    ensures ReconcileOne(norm, name, roster, map[]).matched == Some(id) <==>
            && (exists e <- roster :: e.id == id && Bears(norm, name, e))
            && (forall e <- roster :: Bears(norm, name, e) ==> e.id == id)
  {
    ResolvesExactly(norm, name, roster, id);
    var c := Candidates(norm, name, roster);
    assert forall e <- roster :: Bears(norm, name, e) ==> e.id in c;
    if c == {id} {
      assert id in c;
    }
    forall x | x in c ensures exists e <- roster :: e.id == x && Bears(norm, name, e) {
    }
  }

  /**
    A choice that parses and names a roster employee decides, over whatever the plain resolver would
    say; any other choice, or none, leaves the plain resolver's answer.
   */
  lemma OperatorDecides(norm: Normalizer, name: string, roster: Roster, overrides: map<string, IdText>)
    ensures var m := ReconcileOne(norm, name, roster, overrides);
      if name in overrides && exists e <- roster :: ParseId(overrides[name]) == Some(e.id)
      then m == Match(name, ParseId(overrides[name]), Operator, true)
      else m == ReconcileOne(norm, name, roster, map[]) && m.source != Operator
  {
    hide Candidates;
    if name in overrides && ParseId(overrides[name]).Some? && ParseId(overrides[name]).value in RosterIds(roster) {
      var e :| e in roster && e.id == ParseId(overrides[name]).value;
      assert ParseId(overrides[name]) == Some(e.id);
    }
  }

  /** Names with the same normal form resolve alike. */
  lemma SameNormalForm(norm: Normalizer, a: string, b: string, roster: Roster)
    requires norm(a) == norm(b)
    ensures Candidates(norm, a, roster) == Candidates(norm, b, roster)
    ensures ExactIds(norm, a, roster) == ExactIds(norm, b, roster)
  {
    assert forall e: Employee :: ByFullName(norm, a, e) == ByFullName(norm, b, e) && ByAlias(norm, a, e) == ByAlias(norm, b, e);
  }
}
