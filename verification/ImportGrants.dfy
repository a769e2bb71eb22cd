/** Import grants and the claims of concurrent lyrics saves
    (api/lyrics_import_grants.go, api/lyrics_handlers.go). */
module ImportGrants {

  import Sets
  import opened Wrappers

  /** Random capability ids, as fresh numbers. */
  type Token = nat
  type ClaimId = nat

  const MAX_GRANTS: nat := 256
  const TOKEN_TTL: int := 600

  /** producer and identity stand for the whole status and catalog identity. */
  datatype Grant = Grant(user: nat, musicId: int, producer: nat, identity: nat, expiresAt: int, claim: Option<ClaimId>)

  type Grants = map<Token, Grant>

  datatype Claim = Claim(token: Token, claimId: ClaimId)

  datatype ClaimError = Invalid | Busy

  // ---- the operations, each under the mutex ----

  /** Drop the unclaimed grants that have expired. */
  function Unexpired(grants: Grants, now: int): Grants {
    map t | t in grants && (grants[t].claim.Some? || grants[t].expiresAt > now) :: grants[t]
  }

  /** An unclaimed grant that expires first. */
  predicate Oldest(grants: Grants, victim: Token) {
    && victim in grants && grants[victim].claim.None?
    && forall t :: t in grants && grants[t].claim.None? ==> grants[victim].expiresAt <= grants[t].expiresAt
  }

  predicate AllClaimed(grants: Grants) {
    forall t :: t in grants ==> grants[t].claim.Some?
  }

  predicate Evicts(grants: Grants, now: int, victim: Token) {
    var live := Unexpired(grants, now);
    |live| >= MAX_GRANTS && !AllClaimed(live) ==> Oldest(live, victim)
  }

  /** issueLyricsImportGrant; victim is the grant it evicts when full. None is a capacity error. */
  function Issue(grants: Grants, now: int, token: Token, grant: Grant, victim: Token): (r: (Grants, bool)) {
    var live := Unexpired(grants, now);
    var stamped := grant.(expiresAt := now + TOKEN_TTL, claim := None);
    if |live| < MAX_GRANTS then (live[token := stamped], true)
    else if AllClaimed(live) then (live, false)
    else ((live - {victim})[token := stamped], true)
  }

  predicate Matches(grant: Grant, user: nat, musicId: int, producer: nat, now: int) {
    grant.expiresAt > now && grant.user == user && grant.musicId == musicId && grant.producer == producer
  }

  /** claimLyricsImportGrant. */
  function ClaimGrant(grants: Grants, token: Token, user: nat, musicId: int, producer: nat, now: int, claimId: ClaimId)
    : (r: (Grants, Result<Claim, ClaimError>))
  {
    if token !in grants then (grants, Err(Invalid))
    else if grants[token].claim.Some? then (grants, Err(Busy))
    else if !Matches(grants[token], user, musicId, producer, now) then (grants - {token}, Err(Invalid))
    else (grants[token := grants[token].(claim := Some(claimId))], Ok(Claim(token, claimId)))
  }

  predicate Owns(grants: Grants, claim: Claim) {
    claim.token in grants && grants[claim.token].claim == Some(claim.claimId)
  }

  /** commitLyricsImportGrant. */
  function Commit(grants: Grants, claim: Claim): Grants {
    if Owns(grants, claim) then grants - {claim.token} else grants
  }

  /** releaseLyricsImportGrant. */
  function Release(grants: Grants, claim: Claim): Grants {
    if Owns(grants, claim) then grants[claim.token := grants[claim.token].(claim := None)] else grants
  }

  /** invalidateLyricsImportGrant. */
  function Invalidate(grants: Grants, token: Token): Grants {
    grants - {token}
  }

  // ---- one save with a claim ----

  datatype Phase =
    | Checking       // about to compare the catalog identity
    | Deciding       // about to compare the request with the preview
    | Saving         // inside the store's save
    | CallbackFailed // the commit callback found the claim gone
    | Committed      // the commit callback has run
    | Consuming | Releasing | Invalidating
    | Leaving        // the deferred function
    | Returned

  /** resolved is the handler's claimResolved flag. */
  datatype Save = Save(claim: Claim, phase: Phase, resolved: bool)

  /** Outcomes outside the grants: the catalog read, the comparison, the store. */
  datatype Outcome = Proceed | Drift | ReadError | Callback | Terminal | Retryable | Panic

  datatype Step = Step(grants: Grants, save: Save)

  function Goto(grants: Grants, save: Save, phase: Phase): Step {
    Step(grants, save.(phase := phase))
  }

  /** Before the save: each early return consumes or releases the claim. */
  function Decide(grants: Grants, save: Save, outcome: Outcome): Step {
    if outcome.Panic? then Goto(grants, save, Leaving)
    else if save.phase.Checking? then
      if !Owns(grants, save.claim) || outcome.Drift? then Goto(grants, save, Consuming)
      else if outcome.ReadError? then Goto(grants, save, Releasing)
      else Goto(grants, save, Deciding)
    else if outcome.Drift? then Goto(grants, save, Consuming)
    else Goto(grants, save, Saving)
  }

  /** The save and what the handler makes of its result. */
  function Finish(grants: Grants, save: Save, outcome: Outcome): Step {
    match outcome
    case Callback =>
      if save.phase.Committed? then Goto(grants, save, Committed)
      else Step(Commit(grants, save.claim), Save(save.claim, if Owns(grants, save.claim) then Committed else CallbackFailed, true))
    case Terminal => Goto(grants, save, Consuming)
    case Retryable => Goto(grants, save, Releasing)
    case _ => Goto(grants, save, Leaving)
  }

  /** consumeClaim, releaseClaim, the deferred function and invalidation. */
  function Resolve(grants: Grants, save: Save): Step {
    var next := if Owns(grants, save.claim) then Leaving else Invalidating;
    match save.phase
    case Consuming => Step(Commit(grants, save.claim), Save(save.claim, next, true))
    case Releasing => Step(Release(grants, save.claim), Save(save.claim, next, true))
    case CallbackFailed => Goto(Invalidate(grants, save.claim.token), save, Committed)
    case Invalidating => Goto(Invalidate(grants, save.claim.token), save, Leaving)
    case Leaving =>
      if save.resolved then Goto(grants, save, Returned)
      else Step(Release(grants, save.claim), Save(save.claim, if Owns(grants, save.claim) then Returned else Invalidating, true))
    case _ => Step(grants, save)
  }

  function Advance(grants: Grants, save: Save, outcome: Outcome): Step {
    match save.phase
    case Checking | Deciding => Decide(grants, save, outcome)
    case Saving | Committed => Finish(grants, save, outcome)
    case _ => Resolve(grants, save)
  }

  // ---- every save at once ----

  /** issued and claimed: every id ever drawn. commits: successful commits per token. */
  datatype System = System(grants: Grants, saves: seq<Save>, issued: set<Token>, claimed: set<ClaimId>, commits: seq<Token>)

  datatype Event =
    | IssueGrant(now: int, token: Token, grant: Grant, victim: Token)
    | StartSave(now: int, token: Token, user: nat, musicId: int, producer: nat, claimId: ClaimId)
    | AdvanceSave(i: nat, outcome: Outcome)
    | Withdraw(token: Token)

  /** Drawn ids are new, and the evicted grant is an oldest unclaimed one. */
  predicate Possible(s: System, e: Event) {
    match e
    case IssueGrant(now, token, grant, victim) =>
      token !in s.issued && Evicts(s.grants, now, victim)
    case StartSave(_, _, _, _, _, claimId) => claimId !in s.claimed
    case AdvanceSave(i, _) => i < |s.saves|
    case Withdraw(_) => true
  }

  function IssueNext(s: System, now: int, token: Token, grant: Grant, victim: Token): System {
    s.(grants := Issue(s.grants, now, token, grant, victim).0, issued := s.issued + {token})
  }

  function StartNext(s: System, now: int, token: Token, user: nat, musicId: int, producer: nat, claimId: ClaimId): System {
    var (grants, r) := ClaimGrant(s.grants, token, user, musicId, producer, now, claimId);
    s.(grants := grants, claimed := s.claimed + {claimId},
       saves := if r.Ok? then s.saves + [Save(r.value, Checking, false)] else s.saves)
  }

  /** This step commits the claim. */
  predicate Commits(grants: Grants, save: Save, outcome: Outcome) {
    Owns(grants, save.claim) && (save.phase.Consuming? || (save.phase.Saving? && outcome.Callback?))
  }

  function AdvanceNext(s: System, i: nat, outcome: Outcome): System
    requires i < |s.saves|
  {
    var step := Advance(s.grants, s.saves[i], outcome);
    s.(grants := step.grants, saves := s.saves[i := step.save],
       commits := if Commits(s.grants, s.saves[i], outcome) then s.commits + [s.saves[i].claim.token] else s.commits)
  }

  function Next(s: System, e: Event): System
    requires Possible(s, e)
  {
    match e
    case IssueGrant(now, token, grant, victim) => IssueNext(s, now, token, grant, victim)
    case StartSave(now, token, user, musicId, producer, claimId) => StartNext(s, now, token, user, musicId, producer, claimId)
    case AdvanceSave(i, outcome) => AdvanceNext(s, i, outcome)
    case Withdraw(token) => s.(grants := Invalidate(s.grants, token))
  }

  // ---- invariant ----

  /** The claim has not been resolved yet. */
  predicate Live(save: Save) {
    !save.resolved && !save.phase.Returned?
  }

  predicate Spent(phase: Phase) {
    phase.Committed? || phase.CallbackFailed? || phase.Consuming? || phase.Releasing? || phase.Invalidating?
  }

  /** A live claim holds its grant unless the grant is gone; a resolved one that
      may still act finds its grant gone. */
  predicate SaveInv(grants: Grants, save: Save) {
    && (Live(save) ==> save.claim.token in grants ==> grants[save.claim.token].claim == Some(save.claim.claimId))
    && (save.resolved && Spent(save.phase) ==> save.claim.token !in grants)
    && (save.phase.Checking? || save.phase.Deciding? || save.phase.Saving? ==> !save.resolved)
    && (save.phase.Committed? || save.phase.CallbackFailed? || save.phase.Invalidating? || save.phase.Returned? ==> save.resolved)
  }

  predicate SavesInv(s: System) {
    forall i :: 0 <= i < |s.saves| ==>
      SaveInv(s.grants, s.saves[i]) && s.saves[i].claim.token in s.issued && s.saves[i].claim.claimId in s.claimed
  }

  /** No two saves share a claim id, and no two live saves a token. */
  predicate Distinct(s: System) {
    forall i, j :: 0 <= i < j < |s.saves| ==>
      && s.saves[i].claim.claimId != s.saves[j].claim.claimId
      && (Live(s.saves[i]) && Live(s.saves[j]) ==> s.saves[i].claim.token != s.saves[j].claim.token)
  }

  predicate OwnedBy(s: System, token: Token, i: nat) {
    i < |s.saves| && Live(s.saves[i]) && token in s.grants
    && s.saves[i].claim.token == token && s.grants[token].claim == Some(s.saves[i].claim.claimId)
  }

  /** Every claimed grant belongs to a live save. */
  ghost predicate Owned(s: System) {
    forall t :: t in s.grants && s.grants[t].claim.Some? ==> exists i: nat :: OwnedBy(s, t, i)
  }

  predicate TokensInv(s: System) {
    && s.grants.Keys <= s.issued && |s.grants| <= MAX_GRANTS
    && (forall t :: t in s.commits ==> t in s.issued && t !in s.grants)
    && (forall i, j :: 0 <= i < j < |s.commits| ==> s.commits[i] != s.commits[j])
  }

  ghost predicate Inv(s: System) {
    TokensInv(s) && SavesInv(s) && Distinct(s) && Owned(s)
  }

  // ---- one step of one save ----

  predicate Unchanged(before: Grants, after: Grants, token: Token) {
    (token in after <==> token in before) && (token in before ==> after[token] == before[token])
  }

  /** Only a live save that owns its grant changes anything, and only that
      grant: it goes, or it becomes unclaimed, and the claim is resolved. */
  ghost predicate Effects(grants: Grants, save: Save, step: Step) {
    && step.save.claim == save.claim && SaveInv(step.grants, step.save) && (Live(step.save) ==> Live(save))
    && (step.grants != grants ==> Live(save) && Owns(grants, save.claim) && !Live(step.save))
    && (forall t :: t != save.claim.token ==> Unchanged(grants, step.grants, t))
    && (save.claim.token in step.grants ==> save.claim.token in grants)
    && (step.grants != grants && save.claim.token in step.grants ==> step.grants[save.claim.token].claim.None?)
    && (Live(save) && !Live(step.save) && save.claim.token in step.grants ==> step.grants[save.claim.token].claim.None?)
  }

  lemma DecideEffects(grants: Grants, save: Save, outcome: Outcome)
    requires SaveInv(grants, save) && (save.phase.Checking? || save.phase.Deciding?)
    ensures Effects(grants, save, Decide(grants, save, outcome))
  {}

  lemma FinishEffects(grants: Grants, save: Save, outcome: Outcome)
    requires SaveInv(grants, save) && (save.phase.Saving? || save.phase.Committed?)
    ensures Effects(grants, save, Finish(grants, save, outcome))
  {}

  lemma GoneAlready(grants: Grants, token: Token)
    requires token !in grants
    ensures grants - {token} == grants
  {}

  lemma ResolveEffects(grants: Grants, save: Save)
    requires SaveInv(grants, save) && !save.phase.Checking? && !save.phase.Deciding? && !save.phase.Saving? && !save.phase.Committed?
    ensures Effects(grants, save, Resolve(grants, save))
  {
    if save.claim.token !in grants {
      GoneAlready(grants, save.claim.token);
    }
  }

  lemma AdvanceEffects(grants: Grants, save: Save, outcome: Outcome)
    requires SaveInv(grants, save)
    ensures Effects(grants, save, Advance(grants, save, outcome))
  {
    match save.phase
    case Checking | Deciding => DecideEffects(grants, save, outcome);
    case Saving | Committed => FinishEffects(grants, save, outcome);
    case _ => ResolveEffects(grants, save);
  }

  // ---- each event keeps the invariant ----

  lemma SmallerSize(a: Grants, b: Grants)
    requires a.Keys <= b.Keys
    ensures |a| <= |b|
  {
    Sets.SubsetSize(a.Keys, b.Keys);
  }

  lemma AdvanceKeepsSaves(s: System, i: nat, outcome: Outcome)
    requires SavesInv(s) && Distinct(s) && i < |s.saves|
    ensures SavesInv(AdvanceNext(s, i, outcome)) && Distinct(AdvanceNext(s, i, outcome))
  {
    var save, next := s.saves[i], AdvanceNext(s, i, outcome);
    AdvanceEffects(s.grants, save, outcome);
    forall j | 0 <= j < |s.saves| && j != i ensures SaveInv(next.grants, s.saves[j]) {
      var other := s.saves[j];
      if other.claim.token != save.claim.token {
        assert Unchanged(s.grants, next.grants, other.claim.token);
      }
    }
  }

  lemma AdvanceKeepsOwned(s: System, i: nat, outcome: Outcome)
    requires SavesInv(s) && Owned(s) && i < |s.saves|
    ensures Owned(AdvanceNext(s, i, outcome))
  {
    var save, next := s.saves[i], AdvanceNext(s, i, outcome);
    AdvanceEffects(s.grants, save, outcome);
    forall t | t in next.grants && next.grants[t].claim.Some? ensures exists j: nat :: OwnedBy(next, t, j) {
      if t != save.claim.token {
        assert Unchanged(s.grants, next.grants, t);
      }
      var j: nat :| OwnedBy(s, t, j);
      assert OwnedBy(next, t, j);
    }
  }

  lemma AdvanceKeepsTokens(s: System, i: nat, outcome: Outcome)
    requires TokensInv(s) && SavesInv(s) && i < |s.saves|
    ensures TokensInv(AdvanceNext(s, i, outcome))
  {
    var save, next := s.saves[i], AdvanceNext(s, i, outcome);
    AdvanceEffects(s.grants, save, outcome);
    forall t | t in next.grants ensures t in s.grants {
      if t != save.claim.token {
        assert Unchanged(s.grants, next.grants, t);
      }
    }
    SmallerSize(next.grants, s.grants);
  }

  lemma StartEffects(s: System, now: int, token: Token, user: nat, musicId: int, producer: nat, claimId: ClaimId)
    requires Inv(s) && claimId !in s.claimed
    ensures Inv(StartNext(s, now, token, user, musicId, producer, claimId))
  {
    var next := StartNext(s, now, token, user, musicId, producer, claimId);
    SmallerSize(next.grants, s.grants);
    forall i | 0 <= i < |s.saves| ensures SaveInv(next.grants, s.saves[i]) && s.saves[i].claim.claimId != claimId {
      assert SaveInv(s.grants, s.saves[i]);
    }
    forall t | t in next.grants && next.grants[t].claim.Some? ensures exists i: nat :: OwnedBy(next, t, i) {
      if t == token && next.grants[t].claim == Some(claimId) {
        assert OwnedBy(next, t, |s.saves|);
      } else {
        var i: nat :| OwnedBy(s, t, i);
        assert next.saves[i] == s.saves[i];
        assert OwnedBy(next, t, i);
      }
    }
  }

  lemma IssueSize(grants: Grants, now: int, token: Token, grant: Grant, victim: Token)
    requires |grants| <= MAX_GRANTS && token !in grants && Evicts(grants, now, victim)
    ensures |Issue(grants, now, token, grant, victim).0| <= MAX_GRANTS
    ensures |Unexpired(grants, now)| <= MAX_GRANTS
  {
    var live := Unexpired(grants, now);
    SmallerSize(live, grants);
    var stamped := grant.(expiresAt := now + TOKEN_TTL, claim := None);
    if |live| < MAX_GRANTS {
      AddedSize(live, token, stamped);
    } else if !AllClaimed(live) {
      RemovedSize(live, victim);
      AddedSize(live - {victim}, token, stamped);
    }
  }

  lemma AddedSize(grants: Grants, token: Token, grant: Grant)
    ensures |grants[token := grant]| <= |grants| + 1
  {
    assert grants[token := grant].Keys == grants.Keys + {token};
  }

  lemma RemovedSize(grants: Grants, token: Token)
    requires token in grants
    ensures |grants - {token}| == |grants| - 1
  {
    assert (grants - {token}).Keys == grants.Keys - {token};
  }

  /** A grant that issuing removes is unclaimed; the others stay as they are.
      It is refused exactly when 256 claimed grants are in use. */
  lemma IssueEffects(grants: Grants, now: int, token: Token, grant: Grant, victim: Token)
    requires |grants| <= MAX_GRANTS && token !in grants && Evicts(grants, now, victim)
    ensures var (after, ok) := Issue(grants, now, token, grant, victim);
            && |after| <= MAX_GRANTS && after.Keys <= grants.Keys + {token}
            && (forall t :: t in grants && grants[t].claim.Some? ==> t in after && after[t] == grants[t])
            && (forall t :: t in after && t != token ==> t in grants && after[t] == grants[t])
            && (ok ==> token in after && after[token].claim.None?)
            && (!ok <==> |Unexpired(grants, now)| == MAX_GRANTS && AllClaimed(Unexpired(grants, now)))
  {
    IssueSize(grants, now, token, grant, victim);
  }

  lemma IssueKeeps(s: System, now: int, token: Token, grant: Grant, victim: Token)
    requires Inv(s) && Possible(s, IssueGrant(now, token, grant, victim))
    ensures Inv(IssueNext(s, now, token, grant, victim))
  {
    var next := IssueNext(s, now, token, grant, victim);
    IssueEffects(s.grants, now, token, grant, victim);
    forall i | 0 <= i < |s.saves| ensures SaveInv(next.grants, s.saves[i]) {
      assert SaveInv(s.grants, s.saves[i]) && s.saves[i].claim.token != token;
    }
    forall t | t in next.grants && next.grants[t].claim.Some? ensures exists i: nat :: OwnedBy(next, t, i) {
      var i: nat :| OwnedBy(s, t, i);
      assert OwnedBy(next, t, i);
    }
  }

  lemma WithdrawKeeps(s: System, token: Token)
    requires Inv(s)
    ensures Inv(s.(grants := Invalidate(s.grants, token)))
  {
    var next := s.(grants := Invalidate(s.grants, token));
    SmallerSize(next.grants, s.grants);
    forall i | 0 <= i < |s.saves| ensures SaveInv(next.grants, s.saves[i]) {
      assert SaveInv(s.grants, s.saves[i]);
    }
    forall t | t in next.grants && next.grants[t].claim.Some? ensures exists i: nat :: OwnedBy(next, t, i) {
      var i: nat :| OwnedBy(s, t, i);
      assert OwnedBy(next, t, i);
    }
  }

  lemma NextKeepsInv(s: System, e: Event)
    requires Inv(s) && Possible(s, e)
    ensures Inv(Next(s, e))
  {
    match e
    case IssueGrant(now, token, grant, victim) => IssueKeeps(s, now, token, grant, victim);
    case StartSave(now, token, user, musicId, producer, claimId) => StartEffects(s, now, token, user, musicId, producer, claimId);
    case AdvanceSave(i, outcome) =>
      AdvanceKeepsSaves(s, i, outcome);
      AdvanceKeepsOwned(s, i, outcome);
      AdvanceKeepsTokens(s, i, outcome);
    case Withdraw(token) => WithdrawKeeps(s, token);
  }

  // ---- runs ----

  const EMPTY := System(map[], [], {}, {}, [])

  predicate IsRun(events: seq<Event>)
    decreases |events|, 0
  {
    events == [] || (IsRun(events[..|events| - 1]) && Possible(After(events[..|events| - 1]), events[|events| - 1]))
  }

  function After(events: seq<Event>): System
    requires IsRun(events)
    decreases |events|, 1
  {
    if events == [] then EMPTY else Next(After(events[..|events| - 1]), events[|events| - 1])
  }

  lemma {:induction false} RunKeepsInvariant(events: seq<Event>)
    requires IsRun(events)
    ensures Inv(After(events))
    decreases |events|
  {
    if events != [] {
      var before := events[..|events| - 1];
      RunKeepsInvariant(before);
      NextKeepsInv(After(before), events[|events| - 1]);
    }
  }

  // ---- main results, in every reachable state ----

  /** At most 256 grants; a claimed grant has exactly one live save, the one
      whose claim it carries. */
  lemma OneLiveClaimPerGrant(events: seq<Event>, token: Token)
    requires IsRun(events)
    ensures var s := After(events);
            && |s.grants| <= MAX_GRANTS
            && (token in s.grants && s.grants[token].claim.Some? ==> exists i: nat :: OwnedBy(s, token, i))
            && (forall i, j :: 0 <= i < j < |s.saves| && Live(s.saves[i]) && Live(s.saves[j]) ==>
                  s.saves[i].claim.token != s.saves[j].claim.token)
  {
    RunKeepsInvariant(events);
  }

  /** A token commits at most once, and is never in the map again after that. */
  lemma CommitsAtMostOnce(events: seq<Event>)
    requires IsRun(events)
    ensures var s := After(events);
            && (forall i, j :: 0 <= i < j < |s.commits| ==> s.commits[i] != s.commits[j])
            && (forall t :: t in s.commits ==> t !in s.grants)
  {
    RunKeepsInvariant(events);
  }

  /** Whatever happens next, a claimed grant stays as it is unless the event is
      a step of the save that owns it, or withdraws its token. */
  lemma OnlyTheOwnerMovesAClaimedGrant(events: seq<Event>, e: Event, token: Token)
    requires IsRun(events) && Possible(After(events), e)
    requires token in After(events).grants && After(events).grants[token].claim.Some?
    ensures var s := After(events);
            || Unchanged(s.grants, Next(s, e).grants, token)
            || e == Withdraw(token)
            || (e.AdvanceSave? && OwnedBy(s, token, e.i))
  {
    RunKeepsInvariant(events);
    var s := After(events);
    match e
    case IssueGrant(now, drawn, grant, victim) => IssueEffects(s.grants, now, drawn, grant, victim);
    case AdvanceSave(i, outcome) =>
      AdvanceEffects(s.grants, s.saves[i], outcome);
      if s.saves[i].claim.token != token {
        assert Unchanged(s.grants, Advance(s.grants, s.saves[i], outcome).grants, token);
      }
    case _ =>
  }

  lemma OwnersDiffer(s: System, token: Token, owner: nat, i: nat)
    requires Distinct(s) && OwnedBy(s, token, owner) && i < |s.saves| && !Live(s.saves[i])
    ensures s.saves[owner].claim.claimId != s.saves[i].claim.claimId
  {}

  /** When a save returns its grant is gone or unclaimed, or already claimed by
      another live save; its own claim is on no grant. */
  lemma ReturnedSaveHoldsNothing(events: seq<Event>, i: nat)
    requires IsRun(events) && i < |After(events).saves| && After(events).saves[i].phase.Returned?
    ensures var s := After(events);
            && (forall t :: t in s.grants ==> s.grants[t].claim != Some(s.saves[i].claim.claimId))
            && (s.saves[i].claim.token in s.grants && s.grants[s.saves[i].claim.token].claim.Some? ==>
                  exists j: nat :: j != i && OwnedBy(s, s.saves[i].claim.token, j))
  {
    RunKeepsInvariant(events);
    var s := After(events);
    forall t | t in s.grants && s.grants[t].claim.Some? ensures s.grants[t].claim.value != s.saves[i].claim.claimId {
      var j: nat :| OwnedBy(s, t, j);
      OwnersDiffer(s, t, j, i);
    }
    var token := s.saves[i].claim.token;
    if token in s.grants && s.grants[token].claim.Some? {
      var j: nat :| OwnedBy(s, token, j);
      assert j != i;
    }
  }

  /** The step that returns leaves the grant gone or unclaimed. */
  lemma ReturningLeavesNoClaim(events: seq<Event>, i: nat, outcome: Outcome)
    requires IsRun(events) && i < |After(events).saves|
    requires Live(After(events).saves[i]) && !Live(Advance(After(events).grants, After(events).saves[i], outcome).save)
    ensures var s := After(events);
            var after := Advance(s.grants, s.saves[i], outcome).grants;
            s.saves[i].claim.token !in after || after[s.saves[i].claim.token].claim.None?
  {
    RunKeepsInvariant(events);
    AdvanceEffects(After(events).grants, After(events).saves[i], outcome);
  }

  /** The fail-closed invalidations never delete anything: whenever one is
      reached the token is already gone. */
  lemma InvalidationFindsNothing(events: seq<Event>, i: nat)
    requires IsRun(events) && i < |After(events).saves|
    requires After(events).saves[i].phase.Invalidating? || After(events).saves[i].phase.CallbackFailed?
    ensures var s := After(events);
            s.saves[i].claim.token !in s.grants && Invalidate(s.grants, s.saves[i].claim.token) == s.grants
  {
    RunKeepsInvariant(events);
    GoneAlready(After(events).grants, After(events).saves[i].claim.token);
  }

  // ---- a save always returns ----

  /** Calls left before the handler returns. */
  function Remaining(save: Save): nat {
    match save.phase
    case Checking => 9
    case Deciding => 8
    case Saving => 7
    case CallbackFailed => 6
    case Committed => 5
    case Consuming | Releasing => 4
    case Invalidating => 2
    case Leaving => if save.resolved then 1 else 3
    case Returned => 0
  }

  /** Every path returns, and none twice through the same point: only the commit
      callback being called again leaves a save where it is. */
  lemma EveryStepLeadsOut(grants: Grants, save: Save, outcome: Outcome)
    requires SaveInv(grants, save) && !save.phase.Returned?
    requires !(save.phase.Committed? && outcome.Callback?)
    ensures Remaining(Advance(grants, save, outcome).save) < Remaining(save)
  {}
}
