/** Import grants told by the events of a run: who was granted what, when a claim
    succeeds, and what a refused claim costs (api/lyrics_import_grants.go). */
module ImportGrantHistory {

  import opened Wrappers
  import opened ImportGrants

  // ---- issuing ----

  /** The grants an issue finds: those being saved, and those that have not expired. */
  function Found(grants: Grants, now: int): set<Token> {
    set t | t in grants && (grants[t].claim.Some? || grants[t].expiresAt > now)
  }

  predicate Unclaimed(grants: Grants, now: int) {
    exists t :: t in Found(grants, now) && grants[t].claim.None?
  }

  /** A grant is issued unless 256 others are all being saved. It is the one that
      was asked for, for ten minutes and claimed by nobody. Of the others exactly
      the expired go, and, when the map is full, one unclaimed grant that expires
      first; the rest stay as they are. */
  lemma IssuedExactly(events: seq<Event>, now: int, token: Token, grant: Grant, victim: Token, t: Token)
    requires IsRun(events) && Possible(After(events), IssueGrant(now, token, grant, victim))
    ensures var s := After(events);
            var s', full := Next(s, IssueGrant(now, token, grant, victim)), |Found(s.grants, now)| >= MAX_GRANTS;
            && (token in s'.grants <==> !full || Unclaimed(s.grants, now))
            && (token in s'.grants ==> s'.grants[token] == Grant(grant.user, grant.musicId, grant.producer, grant.identity, now + TOKEN_TTL, None))
            && (t != token ==>
                  && (t in s'.grants <==> t in Found(s.grants, now) && !(full && Unclaimed(s.grants, now) && t == victim))
                  && (t in s'.grants ==> s'.grants[t] == s.grants[t]))
            && (full && Unclaimed(s.grants, now) ==>
                  && victim in Found(s.grants, now) && s.grants[victim].claim.None?
                  && (t in Found(s.grants, now) && s.grants[t].claim.None? ==> s.grants[victim].expiresAt <= s.grants[t].expiresAt))
  {
    RunKeepsInvariant(events);
    var s := After(events);
    var live := Unexpired(s.grants, now);
    assert live.Keys == Found(s.grants, now);
    assert |live| == |live.Keys|;
    assert AllClaimed(live) <==> !Unclaimed(s.grants, now);
  }

  // ---- claiming ----

  /** What a claim asks of the grant it names. */
  predicate Claimable(s: System, now: int, token: Token, user: nat, musicId: int, producer: nat) {
    && token in s.grants && s.grants[token].claim.None? && now < s.grants[token].expiresAt
    && s.grants[token].user == user && s.grants[token].musicId == musicId && s.grants[token].producer == producer
  }

  predicate Busy(s: System, token: Token) {
    token in s.grants && s.grants[token].claim.Some?
  }

  /** A save starts if and only if its grant is there, unclaimed, in time, and for
      this user, song and producer status. A busy grant is left alone. Any other
      refusal takes the grant away. */
  lemma ClaimedExactly(events: seq<Event>, now: int, token: Token, user: nat, musicId: int, producer: nat, claimId: ClaimId)
    requires IsRun(events) && claimId !in After(events).claimed
    ensures var s := After(events);
            var s', r := Next(s, StartSave(now, token, user, musicId, producer, claimId)),
                         ClaimGrant(s.grants, token, user, musicId, producer, now, claimId).1;
            if Claimable(s, now, token, user, musicId, producer) then
              && r == Ok(Claim(token, claimId)) && s'.saves == s.saves + [Save(Claim(token, claimId), Checking, false)]
              && s'.grants == s.grants[token := s.grants[token].(claim := Some(claimId))]
            else
              && r == Err(if Busy(s, token) then ClaimError.Busy else Invalid) && s'.saves == s.saves
              && (if Busy(s, token) then s'.grants == s.grants else s'.grants == s.grants - {token})
  {
    var s := After(events);
    if token !in s.grants {
      GoneAlready(s.grants, token);
    }
  }

  /** A token once issued and gone. */
  predicate Lost(s: System, token: Token) {
    token in s.issued && token !in s.grants
  }

  lemma NoSaveBringsBack(s: System, i: nat, outcome: Outcome, token: Token)
    requires Lost(s, token) && i < |s.saves|
    ensures Lost(AdvanceNext(s, i, outcome), token)
  {
    var save := s.saves[i];
    match save.phase
    case Checking | Deciding =>
    case Saving | Committed =>
    case _ =>
  }

  lemma LostStep(s: System, e: Event, token: Token)
    requires Lost(s, token) && Possible(s, e)
    ensures Lost(Next(s, e), token)
  {
    match e
    case AdvanceSave(i, outcome) => NoSaveBringsBack(s, i, outcome, token);
    case _ =>
  }

  /** What is gone never comes back: a refused, committed or withdrawn grant
      cannot be claimed in any later run. */
  lemma {:induction false} LostForEver(events: seq<Event>, n: nat, token: Token)
    requires IsRun(events) && n <= |events| && IsRun(events[..n]) && Lost(After(events[..n]), token)
    ensures Lost(After(events), token)
    decreases |events|
  {
    if n == |events| {
      assert events[..n] == events;
    } else {
      var init := events[..|events| - 1];
      assert init[..n] == events[..n];
      LostForEver(init, n, token);
      LostStep(After(init), events[|events| - 1], token);
    }
  }

  // ---- where a claim comes from ----

  /** Event g grants this much for this token, until `expiresAt`. */
  predicate Granted(events: seq<Event>, g: nat, token: Token, grant: Grant)
    requires g < |events|
  {
    && events[g].IssueGrant? && events[g].token == token && events[g].now + TOKEN_TTL == grant.expiresAt
    && events[g].grant.user == grant.user && events[g].grant.musicId == grant.musicId
    && events[g].grant.producer == grant.producer && events[g].grant.identity == grant.identity
  }

  lemma AdvanceKeepsTerms(s: System, i: nat, outcome: Outcome, t: Token)
    requires i < |s.saves|
    ensures var s' := AdvanceNext(s, i, outcome);
            && (t in s'.grants ==> t in s.grants && s'.grants[t] == s.grants[t].(claim := s'.grants[t].claim))
            && |s'.saves| == |s.saves| && forall j :: 0 <= j < |s.saves| ==> s'.saves[j].claim == s.saves[j].claim
  {
    match s.saves[i].phase
    case Checking | Deciding =>
    case Saving | Committed =>
    case _ =>
  }

  lemma TermsFrom(s: System, e: Event, t: Token)
    requires Possible(s, e) && t in Next(s, e).grants
    ensures var grant := Next(s, e).grants[t];
            || (t in s.grants && grant == s.grants[t].(claim := grant.claim))
            || (e.IssueGrant? && e.token == t && grant == e.grant.(expiresAt := e.now + TOKEN_TTL, claim := None))
  {
    match e
    case AdvanceSave(i, outcome) => AdvanceKeepsTerms(s, i, outcome, t);
    case _ =>
  }

  lemma TermsAt(events: seq<Event>, t: Token)
    requires events != [] && IsRun(events) && t in After(events).grants
    ensures var init, last := events[..|events| - 1], events[|events| - 1];
            var s, grant := After(init), After(events).grants[t];
            || (t in s.grants && grant == s.grants[t].(claim := grant.claim))
            || Granted(events, |init|, t, grant)
  {
    TermsFrom(After(events[..|events| - 1]), events[|events| - 1], t);
  }

  lemma GrantedStill(init: seq<Event>, last: Event, g: nat, t: Token, grant: Grant, grant': Grant)
    requires g < |init| && Granted(init, g, t, grant) && grant' == grant.(claim := grant'.claim)
    ensures Granted(init + [last], g, t, grant')
  {}

  lemma {:induction false} FindGrant(events: seq<Event>, t: Token) returns (g: nat)
    requires IsRun(events) && t in After(events).grants
    ensures g < |events| && Granted(events, g, t, After(events).grants[t])
    decreases |events|
  {
    if events != [] {
      var init, last := events[..|events| - 1], events[|events| - 1];
      TermsAt(events, t);
      g := |init|;
      if !Granted(events, g, t, After(events).grants[t]) {
        g := FindGrant(init, t);
        assert events == init + [last];
        GrantedStill(init, last, g, t, After(init).grants[t], After(events).grants[t]);
      }
    }
  }

  /** Event k claims what event g granted, in time and for the same user, song and status. */
  predicate ClaimsWhatWasGranted(events: seq<Event>, g: nat, k: nat, claim: Claim) {
    && g < k < |events| && events[g].IssueGrant? && events[k].StartSave?
    && events[g].token == events[k].token == claim.token && events[k].claimId == claim.claimId
    && events[k].now < events[g].now + TOKEN_TTL
    && events[k].user == events[g].grant.user && events[k].musicId == events[g].grant.musicId
    && events[k].producer == events[g].grant.producer
  }

  lemma ClaimsFrom(s: System, e: Event, i: nat)
    requires Possible(s, e) && i < |Next(s, e).saves|
    ensures var claim := Next(s, e).saves[i].claim;
            || (i < |s.saves| && claim == s.saves[i].claim)
            || (e.StartSave? && claim == Claim(e.token, e.claimId) && Claimable(s, e.now, e.token, e.user, e.musicId, e.producer))
  {
    match e
    case AdvanceSave(j, outcome) => AdvanceKeepsTerms(s, j, outcome, 0);
    case _ =>
  }

  /** Behind every save with a claim, in every run and however other saves are
      interleaved, is a grant of its token: to the same user, for the same song
      and under the same producer status, less than ten minutes before. */
  lemma {:induction false} EveryClaimWasGranted(events: seq<Event>, i: nat)
    requires IsRun(events) && i < |After(events).saves|
    ensures exists g, k :: ClaimsWhatWasGranted(events, g, k, After(events).saves[i].claim)
    decreases |events|
  {
    if events != [] {
      var init, last := events[..|events| - 1], events[|events| - 1];
      var claim := After(events).saves[i].claim;
      ClaimsFrom(After(init), last, i);
      if i < |After(init).saves| && claim == After(init).saves[i].claim {
        EveryClaimWasGranted(init, i);
        var g, k :| ClaimsWhatWasGranted(init, g, k, claim);
        assert ClaimsWhatWasGranted(events, g, k, claim);
      } else {
        var g := FindGrant(init, last.token);
        assert ClaimsWhatWasGranted(events, g, |init|, claim);
      }
    }
  }

  // ---- committing ----

  lemma CommitFrom(s: System, e: Event, t: Token)
    requires Possible(s, e) && t in Next(s, e).commits
    ensures t in s.commits || (e.AdvanceSave? && t == s.saves[e.i].claim.token && Owns(s.grants, s.saves[e.i].claim))
  {}

  /** Every committed token was claimed, and so granted to its claimer. */
  lemma {:induction false} EveryCommitWasGranted(events: seq<Event>, t: Token)
    requires IsRun(events) && t in After(events).commits
    ensures exists g, k, claimId :: ClaimsWhatWasGranted(events, g, k, Claim(t, claimId))
    decreases |events|
  {
    if events != [] {
      var init, last := events[..|events| - 1], events[|events| - 1];
      CommitFrom(After(init), last, t);
      if t in After(init).commits {
        EveryCommitWasGranted(init, t);
        var g, k, claimId :| ClaimsWhatWasGranted(init, g, k, Claim(t, claimId));
        assert ClaimsWhatWasGranted(events, g, k, Claim(t, claimId));
      } else {
        EveryClaimWasGranted(init, last.i);
        var claim := After(init).saves[last.i].claim;
        var g, k :| ClaimsWhatWasGranted(init, g, k, claim);
        assert ClaimsWhatWasGranted(events, g, k, Claim(t, claim.claimId));
      }
    }
  }
}
