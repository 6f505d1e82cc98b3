/** The identity bridge across a clarification, and the collision-guarded write of confirmed nicknames. */
module AliasLearning {
  import opened Prelude
  import opened Contracts
  import opened ReconcileNames
  import opened Validate

  /** A stored candidate value: null or a bare id in old rows, the nested record in new ones. */
  datatype CandidateValue = LegacyNull | LegacyId(id: IdText) | Nested(suggested: Option<IdText>, bound: Option<IdText>)

  datatype Candidate = Candidate(suggested: Option<IdText>, bound: Option<IdText>)

  /** Tokens with their values, in stored order. */
  type AliasCandidates = seq<(string, CandidateValue)>

  function NormalizeCandidate(value: CandidateValue): Candidate {
    match value
    case LegacyNull => Candidate(None, None)
    case LegacyId(id) => Candidate(None, Some(id))
    case Nested(suggested, bound) => Candidate(suggested, bound)
  }

  /** One record that names the token or the suggested employee, and resolves to that employee. */
  predicate Confirms(norm: Normalizer, token: string, suggested: IdText, fullName: Option<string>, m: NameMatch) {
    && (norm(m.submittedName) == norm(token) || (fullName.Some? && norm(m.submittedName) == norm(fullName.value)))
    && m.resolved
    && Canonical(m.matched.value) == suggested
  }

  predicate BindEvidence(norm: Normalizer, token: string, suggested: IdText, fullName: Option<string>, records: seq<NameMatch>) {
    exists m <- records :: Confirms(norm, token, suggested, fullName, m)
  }

  function FullNameOf(id: IdText, roster: Roster): Option<string> {
    match id
    case Canonical(i) =>
      var e := EmployeeWithId(i, roster);
      if e.Some? then Some(e.value.fullName) else None
    case Foreign(_, _) => None
  }

  // ---------------------------------------------------------------------------------------------
  // The identity bridge
  // ---------------------------------------------------------------------------------------------

  /** The employee a candidate may stand for: its bound id, or its suggestion once a record confirms it. */
  function BridgeTarget(norm: Normalizer, token: string, value: CandidateValue, current: seq<NameMatch>, roster: Roster): Option<EmployeeId>
  {
    var cand := NormalizeCandidate(value);
    if cand.bound.Some? then ParseId(cand.bound.value)
    else if cand.suggested.None? then None
    else if BindEvidence(norm, token, cand.suggested.value, FullNameOf(cand.suggested.value, roster), current)
    then ParseId(cand.suggested.value)
    else None
  }

  function MappedIds(matches: seq<NameMatch>): set<EmployeeId> {
    set m | m in matches && m.resolved :: m.matched.value
  }

  function MappedNames(matches: seq<NameMatch>): set<string> {
    set m | m in matches && m.resolved :: m.submittedName
  }

  function Bridged(norm: Normalizer, prior: seq<NameMatch>, current: seq<NameMatch>, candidates: AliasCandidates, roster: Roster)
    : seq<NameMatch>
  {
    if candidates == [] then prior
    else
      var (token, value) := candidates[|candidates| - 1];
      var before := Bridged(norm, prior, current, candidates[..|candidates| - 1], roster);
      var target := BridgeTarget(norm, token, value, current, roster);
      if target.Some? && target.value in RosterIds(roster)
         && target.value !in MappedIds(before) && token !in MappedNames(before)
      then before + [Match(token, target, Alias, true)]
      else before
  }

  function ConfirmedPrior(norm: Normalizer, prior: Option<seq<NameMatch>>, current: seq<NameMatch>, candidates: AliasCandidates, roster: Roster)
    : Option<seq<NameMatch>>
  {
    if prior.None? then None else Some(Bridged(norm, prior.value, current, candidates, roster))
  }

  method ConfirmedPriorMatches(norm: Normalizer, prior: Option<seq<NameMatch>>, current: seq<NameMatch>,
                               candidates: AliasCandidates, roster: Roster) returns (r: Option<seq<NameMatch>>)
    ensures r == ConfirmedPrior(norm, prior, current, candidates, roster)
  {
    if prior.None? {
      return None;
    }
    if |candidates| == 0 {
      return prior;
    }
    var ids := MappedIds(prior.value);
    var names := MappedNames(prior.value);
    var bridged := prior.value;
    for i := 0 to |candidates|
      invariant bridged == Bridged(norm, prior.value, current, candidates[..i], roster)
      invariant ids == MappedIds(bridged) && names == MappedNames(bridged)
    {
      assert candidates[..i + 1][..i] == candidates[..i];
      var (token, value) := candidates[i];
      var cand := NormalizeCandidate(value);
      var targetText: IdText;
      if cand.bound.Some? {
        targetText := cand.bound.value;
      } else {
        if cand.suggested.None? {
          continue;
        }
        targetText := cand.suggested.value;
        if !BindEvidence(norm, token, targetText, FullNameOf(targetText, roster), current) {
          continue;
        }
      }
      var target := ParseId(targetText);
      if target.None? || target.value !in RosterIds(roster) || target.value in ids || token in names {
        continue;
      }
      MappedStep(bridged, Match(token, target, Alias, true));
      bridged := bridged + [Match(token, target, Alias, true)];
      ids := ids + {target.value};
      names := names + {token};
    }
    assert candidates[..|candidates|] == candidates;
    r := Some(bridged);
  }

  lemma MappedStep(matches: seq<NameMatch>, m: NameMatch)
    requires m.resolved
    ensures MappedIds(matches + [m]) == MappedIds(matches) + {m.matched.value}
    ensures MappedNames(matches + [m]) == MappedNames(matches) + {m.submittedName}
  {
    assert forall x :: x in matches + [m] <==> x in matches || x == m;
    assert m in matches + [m];
  }

  /** What entitles a bridged entry: a bound record, or one confirming record of this round. */
  ghost predicate Entitled(norm: Normalizer, m: NameMatch, current: seq<NameMatch>, candidates: AliasCandidates, roster: Roster) {
    exists k :: 0 <= k < |candidates| && candidates[k].0 == m.submittedName && m.matched.Some? &&
      var cand := NormalizeCandidate(candidates[k].1);
      if cand.bound.Some? then ParseId(cand.bound.value) == m.matched
      else
        && cand.suggested == Some(Canonical(m.matched.value))
        && BindEvidence(norm, m.submittedName, Canonical(m.matched.value),
                        FullNameOf(Canonical(m.matched.value), roster), current)
  }

  /**
    The bridge keeps the prior matches as a prefix. Each entry it adds is a roster employee with
    a bound or confirmed token, and shares neither employee nor token with any resolved entry before it.
   */
  lemma {:induction false} BridgeConservative(norm: Normalizer, prior: seq<NameMatch>, current: seq<NameMatch>,
                                              candidates: AliasCandidates, roster: Roster)
    ensures var r := Bridged(norm, prior, current, candidates, roster);
      && prior <= r
      && forall k | |prior| <= k < |r| ::
           && r[k].resolved && r[k].matched.value in RosterIds(roster)
           && Entitled(norm, r[k], current, candidates, roster)
           && r[k].matched.value !in MappedIds(r[..k])
           && r[k].submittedName !in MappedNames(r[..k])
  {
    if candidates != [] {
      var n := |candidates| - 1;
      var (token, value) := candidates[n];
      BridgeConservative(norm, prior, current, candidates[..n], roster);
      var before := Bridged(norm, prior, current, candidates[..n], roster);
      var r := Bridged(norm, prior, current, candidates, roster);
      forall k | |prior| <= k < |r|
        ensures r[k].resolved && r[k].matched.value in RosterIds(roster)
        ensures Entitled(norm, r[k], current, candidates, roster)
        ensures r[k].matched.value !in MappedIds(r[..k]) && r[k].submittedName !in MappedNames(r[..k])
      {
        if k < |before| {
          assert r[..k] == before[..k];
          EntitledLonger(norm, before[k], current, candidates, roster);
        } else {
          assert r[..k] == before;
          EntitledByLast(norm, token, value, current, candidates, roster);
        }
      }
    }
  }

  lemma EntitledLonger(norm: Normalizer, m: NameMatch, current: seq<NameMatch>, candidates: AliasCandidates, roster: Roster)
    requires candidates != [] && Entitled(norm, m, current, candidates[..|candidates| - 1], roster)
    ensures Entitled(norm, m, current, candidates, roster)
  {
    var shorter := candidates[..|candidates| - 1];
    var k :| 0 <= k < |shorter| && shorter[k].0 == m.submittedName && m.matched.Some? &&
      var cand := NormalizeCandidate(shorter[k].1);
      if cand.bound.Some? then ParseId(cand.bound.value) == m.matched
      else
        && cand.suggested == Some(Canonical(m.matched.value))
        && BindEvidence(norm, m.submittedName, Canonical(m.matched.value),
                        FullNameOf(Canonical(m.matched.value), roster), current);
    assert candidates[k] == shorter[k];
  }

  lemma EntitledByLast(norm: Normalizer, token: string, value: CandidateValue, current: seq<NameMatch>,
                       candidates: AliasCandidates, roster: Roster)
    requires candidates != [] && candidates[|candidates| - 1] == (token, value)
    requires BridgeTarget(norm, token, value, current, roster).Some?
    ensures Entitled(norm, Match(token, BridgeTarget(norm, token, value, current, roster), Alias, true), current, candidates, roster)
  {
    var k := |candidates| - 1;
    var cand := NormalizeCandidate(value);
    if cand.bound.None? {
      // Evidence compares canonical text, so a confirmed suggestion is canonical.
      var m :| m in current && Confirms(norm, token, cand.suggested.value, FullNameOf(cand.suggested.value, roster), m);
      assert cand.suggested.value == Canonical(m.matched.value);
    }
    assert candidates[k].0 == token;
  }

  // ---------------------------------------------------------------------------------------------
  // Every confirmed token is bridged
  // ---------------------------------------------------------------------------------------------

  /**
    The stored value stands for the employee: it is bound to the id; or it merely suggests the id, and
    one resolved record of this round leads the token itself, or the employee's full name, to that id.
   */
  ghost predicate Endorses(norm: Normalizer, token: string, value: CandidateValue, current: seq<NameMatch>, roster: Roster, id: EmployeeId) {
    match value
    case LegacyNull => false
    case LegacyId(bound) => ParseId(bound) == Some(id)
    case Nested(_, Some(bound)) => ParseId(bound) == Some(id)
    case Nested(suggested, None) =>
      && suggested == Some(Canonical(id))
      && exists m <- current :: m.matched == Some(id) &&
           (norm(m.submittedName) == norm(token) || exists e <- roster :: e.id == id && norm(m.submittedName) == norm(e.fullName))
  }

  lemma EndorsedIsTarget(norm: Normalizer, token: string, value: CandidateValue, current: seq<NameMatch>, roster: Roster, id: EmployeeId)
    ensures BridgeTarget(norm, token, value, current, roster) == Some(id) <==> Endorses(norm, token, value, current, roster, id)
  {
    if value.Nested? && value.bound.None? && value.suggested.Some? {
      if Endorses(norm, token, value, current, roster, id) {
        SuggestionConfirmed(norm, token, current, roster, id);
      } else if BindEvidence(norm, token, value.suggested.value, FullNameOf(value.suggested.value, roster), current) {
        var m :| m in current && Confirms(norm, token, value.suggested.value, FullNameOf(value.suggested.value, roster), m);
        assert value.suggested.value == Canonical(m.matched.value);
      }
    }
  }

  lemma SuggestionConfirmed(norm: Normalizer, token: string, current: seq<NameMatch>, roster: Roster, id: EmployeeId)
    requires Endorses(norm, token, Nested(Some(Canonical(id)), None), current, roster, id)
    ensures BindEvidence(norm, token, Canonical(id), FullNameOf(Canonical(id), roster), current)
  {
    var m :| m in current && m.matched == Some(id) &&
      (norm(m.submittedName) == norm(token) || exists e <- roster :: e.id == id && norm(m.submittedName) == norm(e.fullName));
    assert Consistent(m);
    if norm(m.submittedName) != norm(token) {
      var e :| e in roster && e.id == id && norm(m.submittedName) == norm(e.fullName);
      assert EmployeeWithId(id, roster) == Some(e);
    }
    assert Confirms(norm, token, Canonical(id), FullNameOf(Canonical(id), roster), m);
  }

  /** Every entry of the result was there before, or carries an earlier candidate's token to the employee it stands for. */
  lemma {:induction false} BridgedFrom(norm: Normalizer, prior: seq<NameMatch>, current: seq<NameMatch>, candidates: AliasCandidates,
                                       roster: Roster, m: NameMatch)
    requires m in Bridged(norm, prior, current, candidates, roster)
    ensures m in prior || exists j :: 0 <= j < |candidates| && candidates[j].0 == m.submittedName && m.matched.Some?
                                    && Endorses(norm, candidates[j].0, candidates[j].1, current, roster, m.matched.value)
  {
    hide Endorses, BridgeTarget, RosterIds;
    if candidates != [] {
      var n := |candidates| - 1;
      var before := Bridged(norm, prior, current, candidates[..n], roster);
      if m in before {
        BridgedFrom(norm, prior, current, candidates[..n], roster, m);
      } else {
        EndorsedIsTarget(norm, candidates[n].0, candidates[n].1, current, roster, m.matched.value);
      }
    }
  }

  /**
    A candidate that stands for a roster employee is never passed over: in the result the employee or the
    token is resolved. If neither was before, and no earlier candidate claims either, it is the token to the employee.
   */
  lemma {:induction false} BridgeComplete(norm: Normalizer, prior: seq<NameMatch>, current: seq<NameMatch>, candidates: AliasCandidates,
                                          roster: Roster, k: nat, id: EmployeeId)
    requires k < |candidates| && Endorses(norm, candidates[k].0, candidates[k].1, current, roster, id)
    requires exists e <- roster :: e.id == id
    ensures var r := Bridged(norm, prior, current, candidates, roster);
      && (exists m <- r :: m.resolved && (m.matched == Some(id) || m.submittedName == candidates[k].0))
      && (Unclaimed(norm, prior, current, candidates[..k], roster, candidates[k].0, id) ==> Match(candidates[k].0, Some(id), Alias, true) in r)
  {
    hide Endorses, BridgeTarget, Unclaimed;
    var n := |candidates| - 1;
    var before := Bridged(norm, prior, current, candidates[..n], roster);
    if k < n {
      BridgeComplete(norm, prior, current, candidates[..n], roster, k, id);
      assert candidates[..n][..k] == candidates[..k];
    } else {
      EndorsedIsTarget(norm, candidates[n].0, candidates[n].1, current, roster, id);
      if Unclaimed(norm, prior, current, candidates[..n], roster, candidates[n].0, id) {
        UnclaimedIsFree(norm, prior, current, candidates[..n], roster, candidates[n].0, id);
      }
    }
  }

  /** No resolved prior match has the token or the employee, and no candidate carries the token or stands for the employee. */
  ghost predicate Unclaimed(norm: Normalizer, prior: seq<NameMatch>, current: seq<NameMatch>, candidates: AliasCandidates, roster: Roster,
                            token: string, id: EmployeeId)
  {
    && (forall m <- prior | m.resolved :: m.matched != Some(id) && m.submittedName != token)
    && (forall c <- candidates :: c.0 != token && !Endorses(norm, c.0, c.1, current, roster, id))
  }

  lemma UnclaimedIsFree(norm: Normalizer, prior: seq<NameMatch>, current: seq<NameMatch>, candidates: AliasCandidates, roster: Roster,
                        token: string, id: EmployeeId)
    requires Unclaimed(norm, prior, current, candidates, roster, token, id)
    ensures var r := Bridged(norm, prior, current, candidates, roster); id !in MappedIds(r) && token !in MappedNames(r)
  {
    hide Endorses, Bridged;
    forall m <- Bridged(norm, prior, current, candidates, roster) | m.resolved
      ensures m.matched.value != id && m.submittedName != token
    {
      BridgedFrom(norm, prior, current, candidates, roster, m);
    }
  }

  /** The bridged token leads to its employee, and no other name does. */
  lemma BridgedTokenIsSole(norm: Normalizer, prior: seq<NameMatch>, current: seq<NameMatch>, candidates: AliasCandidates,
                           roster: Roster, k: nat, id: EmployeeId, name: string)
    requires k < |candidates| && Endorses(norm, candidates[k].0, candidates[k].1, current, roster, id)
    requires exists e <- roster :: e.id == id
    requires Unclaimed(norm, prior, current, candidates[..k], roster, candidates[k].0, id)
    ensures LastMeans(Bridged(norm, prior, current, candidates, roster), name, id) <==> name == candidates[k].0
  {
    hide Endorses, Bridged, RosterIds, Entitled;
    var r, token := Bridged(norm, prior, current, candidates, roster), candidates[k].0;
    BridgeComplete(norm, prior, current, candidates, roster, k, id);
    BridgeConservative(norm, prior, current, candidates, roster);
    var q :| 0 <= q < |r| && r[q] == Match(token, Some(id), Alias, true);
    forall i | 0 <= i < |r| && i != q ensures !(r[i].resolved && (r[i].matched == Some(id) || r[i].submittedName == token)) {
      if i < |prior| {
        assert r[i] == prior[i] && prior[i] in prior;
      } else if i < q {
        assert r[i] in r[..q];
      } else if q < i {
        assert r[q] in r[..i];
      }
    }
    if LastMeans(r, name, id) {
      var i :| 0 <= i < |r| && r[i].submittedName == name && r[i].matched == Some(id);
      assert Consistent(r[i]);
    }
  }

  lemma {:induction false} NameToIdHas(matches: seq<NameMatch>, name: string)
    ensures name in NameToId(matches) <==> name in MappedNames(matches)
    ensures name in NameToId(matches) ==> NameToId(matches)[name] in MappedIds(matches)
  {
    if matches != [] {
      var n := |matches| - 1;
      NameToIdHas(matches[..n], name);
      assert matches == matches[..n] + [matches[n]];
      if matches[n].resolved {
        MappedStep(matches[..n], matches[n]);
      } else {
        assert forall x :: x in matches <==> x in matches[..n] || x == matches[n];
        assert MappedNames(matches) == MappedNames(matches[..n]);
        assert MappedIds(matches) == MappedIds(matches[..n]);
      }
    }
  }

  /** Two identity maps that agree except on names leading outside `ids` key those ids alike. */
  lemma {:induction false} KeyedAlike(extracted: Extracted, a: map<string, EmployeeId>, b: map<string, EmployeeId>, id: EmployeeId)
    requires forall name :: name in a ==> name in b && b[name] == a[name]
    requires forall name :: name in b && name !in a ==> b[name] != id
    ensures id in KeyedById(extracted, a) <==> id in KeyedById(extracted, b)
    ensures id in KeyedById(extracted, a) ==> KeyedById(extracted, a)[id] == KeyedById(extracted, b)[id]
  {
    if extracted != [] {
      KeyedAlike(extracted[..|extracted| - 1], a, b, id);
    }
  }

  lemma {:induction false} BridgeNames(norm: Normalizer, prior: seq<NameMatch>, current: seq<NameMatch>,
                                       candidates: AliasCandidates, roster: Roster, name: string)
    ensures var a, b := NameToId(prior), NameToId(Bridged(norm, prior, current, candidates, roster));
      && (name in a ==> name in b && b[name] == a[name])
      && (name in b && name !in a ==> b[name] !in MappedIds(prior))
    ensures MappedIds(prior) <= MappedIds(Bridged(norm, prior, current, candidates, roster))
  {
    if candidates != [] {
      var n := |candidates| - 1;
      BridgeNames(norm, prior, current, candidates[..n], roster, name);
      var before := Bridged(norm, prior, current, candidates[..n], roster);
      var r := Bridged(norm, prior, current, candidates, roster);
      if r != before {
        assert r[..|r| - 1] == before;
        MappedStep(before, r[|r| - 1]);
        NameToIdHas(before, name);
      }
    }
  }

  /** The snapshot pairing of every employee the prior matches already mapped is left as it was. */
  lemma BridgeKeepsPairing(norm: Normalizer, prior: seq<NameMatch>, current: seq<NameMatch>, candidates: AliasCandidates,
                           roster: Roster, snapshot: Extracted, id: EmployeeId)
    requires id in MappedIds(prior)
    ensures var a := KeyedById(snapshot, NameToId(prior));
      var b := KeyedById(snapshot, NameToId(Bridged(norm, prior, current, candidates, roster)));
      (id in a <==> id in b) && (id in a ==> a[id] == b[id])
  {
    var a, b := NameToId(prior), NameToId(Bridged(norm, prior, current, candidates, roster));
    forall name ensures name in a ==> name in b && b[name] == a[name]
                ensures name in b && name !in a ==> b[name] != id
    {
      BridgeNames(norm, prior, current, candidates, roster, name);
    }
    KeyedAlike(snapshot, a, b, id);
  }

  // ---------------------------------------------------------------------------------------------
  // Writing aliases
  // ---------------------------------------------------------------------------------------------

  function Learn(e: Employee, id: EmployeeId, token: string): Employee {
    if e.id == id then e.(knownAliases := e.knownAliases + {token}) else e
  }

  /** The roster once `token` is stored as an alias of employee `id`. */
  function WithAlias(roster: Roster, id: EmployeeId, token: string): (r: Roster)
    ensures |r| == |roster|
    ensures forall i | 0 <= i < |roster| :: r[i] == Learn(roster[i], id, token)
  {
    seq(|roster|, i requires 0 <= i < |roster| => Learn(roster[i], id, token))
  }

  /** Would the token resolve to the target, and to nobody else, after the write? */
  predicate SafeToLearn(norm: Normalizer, token: string, target: EmployeeId, roster: Roster) {
    var m := DeterministicMatch(norm, token, WithAlias(roster, target, token));
    m.Some? && m.value.matched == Some(target)
  }

  /** The employee a candidate asks to be learned for: its bound id, when it parses. */
  function BoundId(value: CandidateValue): Option<EmployeeId> {
    var cand := NormalizeCandidate(value);
    if cand.bound.None? then None else ParseId(cand.bound.value)
  }

  function LearnOne(norm: Normalizer, roster: Roster, token: string, value: CandidateValue): Roster {
    var id := BoundId(value);
    if id.Some? && id.value in RosterIds(roster) && SafeToLearn(norm, token, id.value, roster)
    then WithAlias(roster, id.value, token)
    else roster
  }

  function LearnAll(norm: Normalizer, roster: Roster, candidates: AliasCandidates): Roster {
    if candidates == [] then roster
    else
      var (token, value) := candidates[|candidates| - 1];
      LearnOne(norm, LearnAll(norm, roster, candidates[..|candidates| - 1]), token, value)
  }

  /** Writes every safe candidate in turn, checking each against the roster as it then stands. */
  method WriteAliasesIfSafe(norm: Normalizer, roster: Roster, candidates: AliasCandidates) returns (stored: Roster)
    ensures stored == LearnAll(norm, roster, candidates)
  {
    stored := roster;
    for i := 0 to |candidates|
      invariant stored == LearnAll(norm, roster, candidates[..i])
    {
      assert candidates[..i + 1][..i] == candidates[..i];
      var (token, value) := candidates[i];
      var cand := NormalizeCandidate(value);
      if cand.bound.None? {
        continue;
      }
      var id := ParseId(cand.bound.value);
      if id.None? {
        continue;
      }
      var target := EmployeeWithId(id.value, stored);
      if target.None? {
        continue;
      }
      assert target.value in stored;
      if !SafeToLearn(norm, token, id.value, stored) {
        continue;
      }
      if token !in target.value.knownAliases {
        stored := WithAlias(stored, id.value, token);
      } else {
        AlreadyKnown(stored, target.value, token);
      }
    }
    assert candidates[..|candidates|] == candidates;
  }

  /** Storing an alias twice changes nothing. */
  lemma AlreadyKnown(roster: Roster, e: Employee, token: string)
    requires e in roster && token in e.knownAliases
    ensures WithAlias(roster, e.id, token) == roster
  {
    var i :| 0 <= i < |roster| && roster[i] == e;
    forall k | 0 <= k < |roster| ensures WithAlias(roster, e.id, token)[k] == roster[k] {
      if roster[k].id == e.id {
        assert k == i;
        assert e.knownAliases + {token} == e.knownAliases;
      }
    }
  }

  /** What one stored alias does to the candidates of a name. */
  lemma LearnedCandidates(norm: Normalizer, roster: Roster, id: EmployeeId, token: string, name: string)
    requires id in RosterIds(roster)
    ensures ExactIds(norm, name, WithAlias(roster, id, token)) == ExactIds(norm, name, roster)
    ensures AliasIds(norm, name, WithAlias(roster, id, token)) ==
            AliasIds(norm, name, roster) + if norm(token) == norm(name) then {id} else {}
  {
    var r := WithAlias(roster, id, token);
    forall x ensures x in ExactIds(norm, name, r) <==> x in ExactIds(norm, name, roster) {
      if x in ExactIds(norm, name, r) {
        var i :| 0 <= i < |r| && r[i].id == x && ByFullName(norm, name, r[i]);
        assert roster[i] in roster && ByFullName(norm, name, roster[i]);
      }
      if x in ExactIds(norm, name, roster) {
        var i :| 0 <= i < |roster| && roster[i].id == x && ByFullName(norm, name, roster[i]);
        assert r[i] in r && ByFullName(norm, name, r[i]);
      }
    }
    forall x ensures x in AliasIds(norm, name, r) <==> x in AliasIds(norm, name, roster) || (x == id && norm(token) == norm(name)) {
      AliasOf(norm, roster, id, token, name, x);
    }
  }

  lemma AliasOf(norm: Normalizer, roster: Roster, id: EmployeeId, token: string, name: string, x: EmployeeId)
    requires id in RosterIds(roster)
    ensures x in AliasIds(norm, name, WithAlias(roster, id, token)) <==>
            x in AliasIds(norm, name, roster) || (x == id && norm(token) == norm(name))
  {
    hide ByAlias, Learn;
    var r := WithAlias(roster, id, token);
    forall i | 0 <= i < |roster|
      ensures r[i].id == roster[i].id && r[i] in r && roster[i] in roster
      ensures ByAlias(norm, name, r[i]) <==> ByAlias(norm, name, roster[i]) || (roster[i].id == id && norm(token) == norm(name))
    {
      LearnAnswers(norm, roster[i], id, token, name);
    }
    var k :| 0 <= k < |roster| && roster[k].id == id;
    if x in AliasIds(norm, name, r) {
      var i :| 0 <= i < |r| && r[i].id == x && ByAlias(norm, name, r[i]);
    }
    if x in AliasIds(norm, name, roster) {
      var i :| 0 <= i < |roster| && roster[i].id == x && ByAlias(norm, name, roster[i]);
    }
  }

  /** An employee answers to a name by alias as before, and now also to the token's normal form if it is theirs. */
  lemma LearnAnswers(norm: Normalizer, e: Employee, id: EmployeeId, token: string, name: string)
    ensures Learn(e, id, token).id == e.id
    ensures ByAlias(norm, name, Learn(e, id, token)) <==> ByAlias(norm, name, e) || (e.id == id && norm(token) == norm(name))
  {
    if e.id == id && norm(token) == norm(name) {
      assert token in Learn(e, id, token).knownAliases;
    }
    if ByAlias(norm, name, e) {
      var alias :| alias in e.knownAliases && norm(alias) == norm(name);
      assert alias in Learn(e, id, token).knownAliases;
    }
  }

  /** The guard passes exactly when no other employee already answers to the token. */
  lemma SafeExactly(norm: Normalizer, token: string, target: EmployeeId, roster: Roster)
    requires target in RosterIds(roster)
    ensures SafeToLearn(norm, token, target, roster) <==> Candidates(norm, token, roster) <= {target}
  {
    LearnedCandidates(norm, roster, target, token, token);
    ResolvesExactly(norm, token, WithAlias(roster, target, token), target);
    assert Candidates(norm, token, WithAlias(roster, target, token)) == Candidates(norm, token, roster) + {target};
  }

  /** Some candidate's token has the name's normal form and is bound to the employee. */
  ghost predicate LearnedFor(norm: Normalizer, candidates: AliasCandidates, name: string, id: EmployeeId) {
    exists c <- candidates :: norm(c.0) == norm(name) && BoundId(c.1) == Some(id)
  }

  /** One candidate: a name keeps its candidates, or had none and gains exactly the bound employee. */
  lemma LearnOneIsConservative(norm: Normalizer, roster: Roster, token: string, value: CandidateValue, name: string)
    ensures var r := LearnOne(norm, roster, token, value);
      && ExactIds(norm, name, r) == ExactIds(norm, name, roster)
      && RosterIds(r) == RosterIds(roster)
      && (Candidates(norm, name, r) != Candidates(norm, name, roster) ==>
            && Candidates(norm, name, roster) == {}
            && norm(token) == norm(name)
            && BoundId(value).Some?
            && Candidates(norm, name, r) == {BoundId(value).value})
  {
    hide ExactIds, AliasIds, RosterIds, SafeToLearn, DeterministicMatch;
    var r := LearnOne(norm, roster, token, value);
    if r != roster {
      var id := BoundId(value).value;
      SafeExactly(norm, token, id, roster);
      LearnedCandidates(norm, roster, id, token, name);
      SameIds(roster, id, token);
      if norm(token) == norm(name) {
        SameNormalForm(norm, token, name, roster);
        assert Candidates(norm, name, r) == {id};
        assert Candidates(norm, name, roster) == {} || Candidates(norm, name, roster) == {id};
      }
    }
  }

  /**
    Over any batch, a name keeps its candidates, or had none and now leads to the employee bound
    to a learned token with the same normal form. Full-name hits never change.
   */
  lemma {:induction false} LearningIsConservative(norm: Normalizer, roster: Roster, candidates: AliasCandidates, name: string)
    ensures var r := LearnAll(norm, roster, candidates);
      && ExactIds(norm, name, r) == ExactIds(norm, name, roster)
      && RosterIds(r) == RosterIds(roster)
      && (Candidates(norm, name, r) != Candidates(norm, name, roster) ==>
            && Candidates(norm, name, roster) == {}
            && exists id :: Candidates(norm, name, r) == {id} && LearnedFor(norm, candidates, name, id))
  {
    if candidates != [] {
      var n := |candidates| - 1;
      var c := candidates[n];
      LearningIsConservative(norm, roster, candidates[..n], name);
      var before := LearnAll(norm, roster, candidates[..n]);
      LearnOneIsConservative(norm, before, c.0, c.1, name);
      var r := LearnAll(norm, roster, candidates);
      assert r == LearnOne(norm, before, c.0, c.1);
      if Candidates(norm, name, r) != Candidates(norm, name, before) {
        assert c in candidates;
        assert LearnedFor(norm, candidates, name, BoundId(c.1).value);
      } else if Candidates(norm, name, before) != Candidates(norm, name, roster) {
        var id :| Candidates(norm, name, before) == {id} && LearnedFor(norm, candidates[..n], name, id);
        assert forall x <- candidates[..n] :: x in candidates;
        assert LearnedFor(norm, candidates, name, id);
      }
    }
  }

  /** The stored value is bound to the employee. */
  ghost predicate BoundTo(value: CandidateValue, id: EmployeeId) {
    match value
    case LegacyNull => false
    case LegacyId(bound) => ParseId(bound) == Some(id)
    case Nested(_, bound) => bound.Some? && ParseId(bound.value) == Some(id)
  }

  /**
    A bound token that nobody else answers to is learned: if no other roster employee bears it, and no
    earlier candidate of the batch binds another employee under the same normal form, the token resolves to its
    employee once the batch is stored.
   */
  lemma LearnedTokenResolves(norm: Normalizer, roster: Roster, candidates: AliasCandidates, k: nat, id: EmployeeId)
    requires k < |candidates| && BoundTo(candidates[k].1, id) && exists e <- roster :: e.id == id
    requires forall e <- roster | Bears(norm, candidates[k].0, e) :: e.id == id
    requires forall c <- candidates[..k], other | norm(c.0) == norm(candidates[k].0) && BoundTo(c.1, other) :: other == id
    ensures ReconcileOne(norm, candidates[k].0, LearnAll(norm, roster, candidates), map[]).matched == Some(id)
  {
    hide LearnAll, Bears, DeterministicMatch;
    var token := candidates[k].0;
    BearersOnly(norm, token, roster, id);
    var before := LearnAll(norm, roster, candidates[..k]);
    LearningIsConservative(norm, roster, candidates[..k], token);
    if Candidates(norm, token, before) != Candidates(norm, token, roster) {
      var other :| Candidates(norm, token, before) == {other} && LearnedFor(norm, candidates[..k], token, other);
      var c :| c in candidates[..k] && norm(c.0) == norm(token) && BoundId(c.1) == Some(other);
      assert BoundTo(c.1, other);
    }
    LearnedStays(norm, roster, candidates, k, id, |candidates|);
    assert candidates[..|candidates|] == candidates;
    ResolvesExactly(norm, token, LearnAll(norm, roster, candidates), id);
  }

  lemma BearersOnly(norm: Normalizer, name: string, roster: Roster, id: EmployeeId)
    requires forall e <- roster | Bears(norm, name, e) :: e.id == id
    ensures Candidates(norm, name, roster) <= {id}
  {
  }

  lemma {:induction false} LearnedStays(norm: Normalizer, roster: Roster, candidates: AliasCandidates, k: nat, id: EmployeeId, n: nat)
    requires k < n <= |candidates| && BoundTo(candidates[k].1, id) && id in RosterIds(roster)
    requires Candidates(norm, candidates[k].0, LearnAll(norm, roster, candidates[..k])) <= {id}
    ensures Candidates(norm, candidates[k].0, LearnAll(norm, roster, candidates[..n])) == {id}
  {
    hide Candidates, RosterIds, SafeToLearn;
    var token, c := candidates[k].0, candidates[n - 1];
    assert candidates[..n][..n - 1] == candidates[..n - 1];
    var before := LearnAll(norm, roster, candidates[..n - 1]);
    LearnOneIsConservative(norm, before, c.0, c.1, token);
    if k < n - 1 {
      LearnedStays(norm, roster, candidates, k, id, n - 1);
    } else {
      LearningIsConservative(norm, roster, candidates[..k], token);
      LearnsIt(norm, before, token, c.1, id);
    }
  }

  lemma LearnsIt(norm: Normalizer, roster: Roster, token: string, value: CandidateValue, id: EmployeeId)
    requires BoundTo(value, id) && id in RosterIds(roster) && Candidates(norm, token, roster) <= {id}
    ensures Candidates(norm, token, LearnOne(norm, roster, token, value)) == {id}
  {
    hide ExactIds, AliasIds, RosterIds, SafeToLearn, DeterministicMatch;
    SafeExactly(norm, token, id, roster);
    LearnedCandidates(norm, roster, id, token, token);
    assert BoundId(value) == Some(id);
  }

  lemma SameIds(roster: Roster, id: EmployeeId, token: string)
    ensures RosterIds(WithAlias(roster, id, token)) == RosterIds(roster)
  {
    var r := WithAlias(roster, id, token);
    forall x ensures x in RosterIds(r) <==> x in RosterIds(roster) {
      if x in RosterIds(r) {
        var i :| 0 <= i < |r| && r[i].id == x;
        assert roster[i] in roster;
      }
      if x in RosterIds(roster) {
        var i :| 0 <= i < |roster| && roster[i].id == x;
        assert r[i] in r;
      }
    }
  }

  /**
    In resolver terms: a resolved name resolves as before, an ambiguous one stays unresolved, and a
    newly resolved one normalises to a learned token and goes to the employee bound to it.
   */
  lemma LearningKeepsResolutions(norm: Normalizer, roster: Roster, candidates: AliasCandidates, name: string)
    ensures var was := ReconcileOne(norm, name, roster, map[]);
      var now := ReconcileOne(norm, name, LearnAll(norm, roster, candidates), map[]);
      && (was.resolved ==> now == was)
      && (|Candidates(norm, name, roster)| > 1 ==> !now.resolved)
      && (!was.resolved && now.resolved ==> LearnedFor(norm, candidates, name, now.matched.value))
  {
    hide ExactIds, AliasIds, RosterIds, LearnAll, LearnedFor;
    LearningIsConservative(norm, roster, candidates, name);
    var r := LearnAll(norm, roster, candidates);
    var a, b := Candidates(norm, name, roster), Candidates(norm, name, r);
    if b != a {
      var id :| b == {id} && LearnedFor(norm, candidates, name, id);
      ResolvesExactly(norm, name, r, id);
    }
  }
}
