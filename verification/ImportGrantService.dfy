/** The grant map under its mutex and the save handler that claims from it
    (api/lyrics_import_grants.go, api/lyrics_handlers.go). */
module ImportGrantService {

  import opened Wrappers
  import opened ImportGrants

  datatype StoreError = Contract(code: string) | OtherError

  /** importedLyricsFailureIsTerminal. */
  predicate FailureIsTerminal(error: StoreError) {
    error.Contract? && (error.code == "source_drift" || error.code == "revision_conflict")
  }

  /** Where a save may panic: the catalog read, the comparison, the store's save
      (after its callback when that ran), the hooks behind a save. */
  datatype Site = InCatalog | InComparison | InStore | InHooks

  /** What the store and the catalog answer during one save, and where it panics. */
  datatype World = World(catalog: Outcome, requestMatches: bool, callback: bool, error: Option<StoreError>, panic: Option<Site>)

  /** The catalog and the request let the store be called. */
  predicate ReachesStore(world: World) {
    world.panic != Some(InCatalog) && !world.catalog.Drift? && !world.catalog.ReadError?
    && world.panic != Some(InComparison) && world.requestMatches
  }

  /** The editor may try again with the same preview: the save ended, in a
      panic or in any way but a terminal one, before the commit callback. */
  predicate MayRetry(world: World) {
    || world.panic == Some(InCatalog)
    || (!world.catalog.Drift? && world.catalog.ReadError?)
    || (!world.catalog.Drift? && world.panic == Some(InComparison))
    || (ReachesStore(world) && !world.callback
        && (world.panic == Some(InStore) || world.error.None? || !FailureIsTerminal(world.error.value)))
  }

  /** Nobody withdraws the grant meanwhile. */
  ghost predicate NotWithdrawn(others: nat -> (Grants, bool)) {
    forall k :: !others(k).1
  }

  class Server {
    var grants: Grants

    /** Deletes what has expired, one grant at a time. */
    method Prune(now: int)
      modifies this
      ensures grants == Unexpired(old(grants), now)
    {
      var pending := grants.Keys;
      while pending != {}
        invariant pending <= grants.Keys <= old(grants).Keys
        invariant forall t :: t in grants ==> grants[t] == old(grants)[t]
        invariant forall t :: t in old(grants) && t !in pending ==> (t in grants <==> t in Unexpired(old(grants), now))
        decreases pending
      {
        var t :| t in pending;
        if grants[t].claim.None? && grants[t].expiresAt <= now {
          grants := grants - {t};
        }
        pending := pending - {t};
      }
    }

    /** The unclaimed grant that expires first, if any is unclaimed. */
    method FindOldest() returns (oldest: Option<Token>)
      ensures oldest.None? <==> AllClaimed(grants)
      ensures oldest.Some? ==> Oldest(grants, oldest.value)
    {
      oldest := None;
      var pending := grants.Keys;
      while pending != {}
        invariant pending <= grants.Keys
        invariant oldest.Some? ==> oldest.value in grants && grants[oldest.value].claim.None?
        invariant forall t :: t in grants && t !in pending && grants[t].claim.None? ==>
          oldest.Some? && grants[oldest.value].expiresAt <= grants[t].expiresAt
        decreases pending
      {
        var t :| t in pending;
        if grants[t].claim.None? && (oldest.None? || grants[t].expiresAt < grants[oldest.value].expiresAt) {
          oldest := Some(t);
        }
        pending := pending - {t};
      }
    }

    method IssueGrant(now: int, token: Token, grant: Grant) returns (ok: bool, ghost victim: Token)
      modifies this
      ensures Evicts(old(grants), now, victim)
      ensures (grants, ok) == Issue(old(grants), now, token, grant, victim)
    {
      victim := 0;
      Prune(now);
      if |grants| >= MAX_GRANTS {
        var oldest := FindOldest();
        if oldest.None? {
          return false, 0;
        }
        victim := oldest.value;
        grants := grants - {oldest.value};
      }
      grants := grants[token := grant.(expiresAt := now + TOKEN_TTL, claim := None)];
      ok := true;
    }

    method ClaimFor(token: Token, user: nat, musicId: int, producer: nat, now: int, claimId: ClaimId) returns (r: Result<Claim, ClaimError>)
      modifies this
      ensures (grants, r) == ClaimGrant(old(grants), token, user, musicId, producer, now, claimId)
    {
      if token !in grants {
        return Err(Invalid);
      }
      var grant := grants[token];
      if grant.claim.Some? {
        return Err(Busy);
      }
      if grant.expiresAt <= now || grant.user != user || grant.musicId != musicId || grant.producer != producer {
        grants := grants - {token};
        return Err(Invalid);
      }
      grants := grants[token := grant.(claim := Some(claimId))];
      r := Ok(Claim(token, claimId));
    }

    method CommitClaim(claim: Claim) returns (ok: bool)
      modifies this
      ensures ok == Owns(old(grants), claim) && grants == Commit(old(grants), claim)
    {
      if claim.token !in grants || grants[claim.token].claim != Some(claim.claimId) {
        return false;
      }
      grants := grants - {claim.token};
      ok := true;
    }

    method ReleaseClaim(claim: Claim) returns (ok: bool)
      modifies this
      ensures ok == Owns(old(grants), claim) && grants == Release(old(grants), claim)
    {
      if claim.token !in grants || grants[claim.token].claim != Some(claim.claimId) {
        return false;
      }
      grants := grants[claim.token := grants[claim.token].(claim := None)];
      ok := true;
    }

    method InvalidateToken(token: Token)
      modifies this
      ensures grants == Invalidate(old(grants), token)
    {
      grants := grants - {token};
    }

    /** Anything the other holders of the mutex may have done to the map. */
    method Interfere(claim: Claim, others: (Grants, bool))
      modifies this
      ensures grants == Interfered(old(grants), claim, others)
    {
      grants := Interfered(grants, claim, others);
    }

    /** consumeClaim: commit, or invalidate when the claim was lost. */
    method ConsumeClaim(claim: Claim, others: (Grants, bool), ghost save: Save) returns (ghost after: Save)
      requires save.claim == claim && save.phase.Consuming? && SaveInv(grants, save) && Foreign(grants, claim)
      modifies this
      ensures after.claim == claim && after.phase.Leaving? && after.resolved && SaveInv(grants, after) && Foreign(grants, claim)
      ensures claim.token !in grants
    {
      AdvanceEffects(grants, save, Proceed);
      after := Advance(grants, save, Proceed).save;
      var committed := CommitClaim(claim);
      if !committed {
        Interfere(claim, others);
        AdvanceEffects(grants, after, Proceed);
        after := Advance(grants, after, Proceed).save;
        InvalidateToken(claim.token);
      }
    }

    /** releaseClaim: release, or invalidate when the claim was lost. */
    method ReleaseOrInvalidate(claim: Claim, others: (Grants, bool), ghost save: Save) returns (ghost after: Save)
      requires save.claim == claim && (save.phase.Releasing? || (save.phase.Leaving? && !save.resolved))
      requires SaveInv(grants, save) && Foreign(grants, claim)
      modifies this
      ensures after.claim == claim && after.resolved && SaveInv(grants, after) && Foreign(grants, claim)
      ensures after.phase.Leaving? || (save.phase.Leaving? && after.phase.Returned?)
      ensures if Owns(old(grants), claim) then grants == Release(old(grants), claim) else claim.token !in grants
    {
      AdvanceEffects(grants, save, Proceed);
      after := Advance(grants, save, Proceed).save;
      var released := ReleaseClaim(claim);
      if !released {
        Interfere(claim, others);
        AdvanceEffects(grants, after, Proceed);
        after := Advance(grants, after, Proceed).save;
        InvalidateToken(claim.token);
      }
    }

    /** The save callback: consumeClaim inside the store. */
    method CommitInside(claim: Claim, others: (Grants, bool), ghost save: Save) returns (ghost after: Save)
      requires save.claim == claim && save.phase.Saving? && SaveInv(grants, save) && Foreign(grants, claim)
      modifies this
      ensures after.claim == claim && after.phase.Committed? && SaveInv(grants, after) && Foreign(grants, claim)
      ensures claim.token !in grants
    {
      AdvanceEffects(grants, save, Callback);
      after := Advance(grants, save, Callback).save;
      var committed := CommitClaim(claim);
      if !committed {
        Interfere(claim, others);
        AdvanceEffects(grants, after, Callback);
        after := Advance(grants, after, Callback).save;
        InvalidateToken(claim.token);
      }
    }

    /** The branches from a successful claim to the deferred function; resolved
        is claimResolved. A panic goes there as it is. */
    method ResolveClaim(claim: Claim, world: World, others: nat -> (Grants, bool))
      returns (claimResolved: bool, panicked: bool, ghost save: Save)
      requires Owns(grants, claim) && Foreign(grants, claim)
      modifies this
      ensures save.claim == claim && save.phase.Leaving? && save.resolved == claimResolved
      ensures SaveInv(grants, save) && Foreign(grants, claim)
      ensures claimResolved ==> !Owns(grants, claim)
      ensures panicked ==> world.panic.Some? && claimResolved == (ReachesStore(world) && world.callback)
      ensures NotWithdrawn(others) ==>
        && (claim.token in grants <==> MayRetry(world))
        && (MayRetry(world) ==>
              grants[claim.token] == old(grants)[claim.token].(claim := if claimResolved then None else Some(claim.claimId)))
    {
      save := Save(claim, Checking, false);
      claimResolved := false;
      panicked := false;
      Interfere(claim, others(0));
      if world.panic == Some(InCatalog) {
        save := Advance(grants, save, Panic).save;
        return false, true, save;
      }
      var current := Owns(grants, claim);
      var outcome := if !current || world.catalog.Drift? then Drift else if world.catalog.ReadError? then ReadError else Proceed;
      save := Advance(grants, save, outcome).save;
      if !current || outcome.Drift? {
        Interfere(claim, others(1));
        save := ConsumeClaim(claim, others(2), save);
        return true, false, save;
      }
      if outcome.ReadError? {
        Interfere(claim, others(1));
        save := ReleaseOrInvalidate(claim, others(2), save);
        return true, false, save;
      }
      if world.panic == Some(InComparison) {
        save := Advance(grants, save, Panic).save;
        return false, true, save;
      }
      save := Advance(grants, save, if world.requestMatches then Proceed else Drift).save;
      if !world.requestMatches {
        Interfere(claim, others(1));
        save := ConsumeClaim(claim, others(2), save);
        return true, false, save;
      }
      claimResolved, panicked, save := CallStore(claim, world, others, save);
    }

    /** The store's save with its callback, and what its result means. */
    method CallStore(claim: Claim, world: World, others: nat -> (Grants, bool), ghost before: Save)
      returns (claimResolved: bool, panicked: bool, ghost save: Save)
      requires before.claim == claim && before.phase.Saving? && !before.resolved
      requires SaveInv(grants, before) && Foreign(grants, claim) && ReachesStore(world)
      modifies this
      ensures save.claim == claim && save.phase.Leaving? && save.resolved == claimResolved
      ensures SaveInv(grants, save) && Foreign(grants, claim)
      ensures claimResolved ==> !Owns(grants, claim)
      ensures panicked ==> world.panic.Some? && claimResolved == world.callback
      ensures NotWithdrawn(others) && Owns(old(grants), claim) ==>
        && (claim.token in grants <==> MayRetry(world))
        && (MayRetry(world) ==>
              grants[claim.token] == old(grants)[claim.token].(claim := if claimResolved then None else Some(claim.claimId)))
    {
      save := before;
      claimResolved := false;
      panicked := false;
      if world.callback {
        Interfere(claim, others(3));
        save := CommitInside(claim, others(4), save);
        claimResolved := true;
      }
      if world.panic == Some(InStore) {
        save := Advance(grants, save, Panic).save;
        return claimResolved, true, save;
      }
      if world.error.Some? {
        var terminal := FailureIsTerminal(world.error.value);
        save := Advance(grants, save, if terminal then Terminal else Outcome.Retryable).save;
        Interfere(claim, others(5));
        if terminal {
          save := ConsumeClaim(claim, others(6), save);
        } else {
          save := ReleaseOrInvalidate(claim, others(6), save);
        }
        return true, false, save;
      }
      panicked := world.panic == Some(InHooks);
      save := Advance(grants, save, if panicked then Panic else Proceed).save;
    }

    /** handleLyricsSave from the claim on, with its deferred function: every path,
        a panicking one too, ends in a returned save of the model, no grant
        carries its claim, and the grant is back exactly when a retry is safe. */
    method HandleSave(claim: Claim, world: World, others: nat -> (Grants, bool)) returns (panicked: bool, ghost save: Save)
      requires Owns(grants, claim) && Foreign(grants, claim)
      modifies this
      ensures save.claim == claim && SaveInv(grants, save)
      ensures save.resolved && (save.phase.Leaving? || save.phase.Returned?)
      ensures forall t :: t in grants ==> grants[t].claim != Some(claim.claimId)
      ensures panicked ==> world.panic.Some?
      ensures NotWithdrawn(others) ==>
        && (claim.token in grants <==> MayRetry(world))
        && (MayRetry(world) ==> grants[claim.token] == old(grants)[claim.token].(claim := None))
    {
      var claimResolved;
      claimResolved, panicked, save := ResolveClaim(claim, world, others);
      if !claimResolved {
        Interfere(claim, others(7));
        save := ReleaseOrInvalidate(claim, others(8), save);
      }
    }
  }

  /** No other grant carries this claim. */
  predicate Foreign(grants: Grants, claim: Claim) {
    forall t :: t in grants && t != claim.token ==> grants[t].claim != Some(claim.claimId)
  }

  /** What other saves can make of the map: a claimed grant stays unless its token
      is withdrawn, tokens are never issued again, claim ids are never drawn again. */
  function Interfered(grants: Grants, claim: Claim, others: (Grants, bool)): Grants {
    var theirs := map t | t in others.0 && t != claim.token && others.0[t].claim != Some(claim.claimId) :: others.0[t];
    if claim.token !in grants || others.1 then theirs
    else if Owns(grants, claim) then theirs[claim.token := grants[claim.token]]
    else if claim.token in others.0 && others.0[claim.token].claim != Some(claim.claimId) then theirs[claim.token := others.0[claim.token]]
    else theirs
  }
}
