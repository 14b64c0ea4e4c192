/** What refresh-token rotation guarantees over every interleaving, and the service that performs it. */
module AuthSafety {
  import opened Wrappers
  import opened AuthSessions

  lemma NobodyInv()
    ensures Inv(NOBODY)
  {
  }

  /** The rotations of every session form one chain without repetition; the row holds its last two tokens. */
  lemma RotationsFormChain(steps: seq<Step>, id: SessionId)
    ensures var s := Run(NOBODY, steps);
            id in s.sessions ==>
              && id in s.first
              && var chain := Chain(s.first[id], s.rotations);
                 && Distinct(chain)
                 && s.sessions[id].current == chain[|chain| - 1]
                 && s.sessions[id].previous == if |chain| == 1 then None else Some(chain[|chain| - 2])
    ensures var s := Run(NOBODY, steps); RotationsFollow(s.first, s.rotations)
  {
    NobodyInv();
    RunKeepsInv(NOBODY, steps);
    assert id in Run(NOBODY, steps).sessions ==> SessionOk(Run(NOBODY, steps), id);
  }

  lemma {:induction false} TokenOnChain(first: Token, rotations: seq<Rotation>, k: nat)
    requires k < |rotations| && rotations[k].from.sessionId == first.sessionId
    requires rotations[k].from == Last(Chain(first, rotations[..k]))
    ensures var chain := Chain(first, rotations);
            |Chain(first, rotations[..k])| < |chain| && chain[|Chain(first, rotations[..k])| - 1] == rotations[k].from
    decreases |rotations|
  {
    var n := |rotations| - 1;
    if k == n {
      assert rotations[..k] == rotations[..n];
    } else {
      assert rotations[..n][..k] == rotations[..k];
      TokenOnChain(first, rotations[..n], k);
    }
  }

  lemma {:induction false} ChainGrows(first: Token, rotations: seq<Rotation>, j: nat, k: nat)
    requires j <= k <= |rotations|
    ensures |Chain(first, rotations[..j])| <= |Chain(first, rotations[..k])|
    ensures j < k && rotations[j].from.sessionId == first.sessionId ==>
              |Chain(first, rotations[..j])| < |Chain(first, rotations[..k])|
    decreases k - j
  {
    if j < k {
      assert rotations[..k][..k - 1] == rotations[..k - 1];
      ChainGrows(first, rotations, j, k - 1);
    }
  }

  /** Each refresh token wins at most one rotation. */
  lemma EachTokenWinsOnce(steps: seq<Step>, j: nat, k: nat)
    ensures var rotations := Run(NOBODY, steps).rotations;
            j < k < |rotations| ==> rotations[j].from != rotations[k].from
  {
    NobodyInv();
    RunKeepsInv(NOBODY, steps);
    var s := Run(NOBODY, steps);
    if j < k < |s.rotations| && s.rotations[j].from.sessionId == s.rotations[k].from.sessionId {
      assert FollowsAt(s.first, s.rotations, j) && FollowsAt(s.first, s.rotations, k);
      var first := s.first[s.rotations[j].from.sessionId];
      assert SessionOk(s, s.rotations[j].from.sessionId);
      TokenOnChain(first, s.rotations, j);
      TokenOnChain(first, s.rotations, k);
      ChainGrows(first, s.rotations, j, k);
    }
  }

  // ---------------------------------------------------------------------------------------------
  // Revoked is final
  // ---------------------------------------------------------------------------------------------

  lemma RevokedStays(s: System, step: Step, id: SessionId)
    requires Inv(s) && id in s.sessions && s.sessions[id].status == Revoked
    ensures var s' := Next(s, step);
            id in s'.sessions && s'.sessions[id].(reason := None) == s.sessions[id].(reason := None)
  {
    if step.SwapTokens? && step.caller in s.callers {
      assert CallerOk(s.sessions, s.callers[step.caller]);
    }
  }

  /** A revoked session never rotates and never becomes active again. */
  lemma {:induction false} RevokedForever(s: System, steps: seq<Step>, id: SessionId)
    requires Inv(s) && id in s.sessions && s.sessions[id].status == Revoked
    ensures var s' := Run(s, steps);
            id in s'.sessions && s'.sessions[id].(reason := None) == s.sessions[id].(reason := None)
  {
    if steps != [] {
      var front := steps[..|steps| - 1];
      RevokedForever(s, front, id);
      RunKeepsInv(s, front);
      RevokedStays(Run(s, front), steps[|steps| - 1], id);
    }
  }

  /** The caller that detected a replay or lost the swap leaves its session revoked, for good. */
  lemma DetectionRevokes(s: System, caller: CallerId, later: seq<Step>)
    requires Inv(s) && caller in s.callers && s.callers[caller].MustRevoke?
    ensures var s' := Run(Next(s, RevokeSessions(caller)), later);
            var c := s.callers[caller];
            && c.token.sessionId in s'.sessions && s'.sessions[c.token.sessionId].status == Revoked
  {
    assert CallerOk(s.sessions, s.callers[caller]);
    NextKeepsInv(s, RevokeSessions(caller));
    RevokedForever(Next(s, RevokeSessions(caller)), later, s.callers[caller].token.sessionId);
  }

  // ---------------------------------------------------------------------------------------------
  // Replays
  // ---------------------------------------------------------------------------------------------

  /**
   * What a refresh with the i-th token of the chain is told on an active session: the token before the last
   * one triggers revocation, the last one may rotate, and every older one is refused without revoking anything.
   */
  lemma ReplayVerdict(s: System, id: SessionId, i: nat, usable: bool)
    requires Inv(s) && id in s.sessions
    requires i < |Chain(s.first[id], s.rotations)|
    ensures var chain := Chain(s.first[id], s.rotations);
            var row := s.sessions[id];
            && (Judge(RefreshCall, row, chain[i], usable) == Reuse <==> i + 2 == |chain|)
            && (Judge(RefreshCall, row, chain[i], usable) == Proceed <==>
                  i + 1 == |chain| && row.status == Active && usable)
            && (forall organizationId :: Judge(SwitchCall(organizationId), row, chain[i], usable) != Reuse)
  {
    assert SessionOk(s, id);
  }

  /** Once a token has been rotated away it is never current again. */
  lemma {:induction false} NeverCurrentAgain(s: System, steps: seq<Step>, id: SessionId, i: nat)
    requires Inv(s) && id in s.sessions && i + 1 < |Chain(s.first[id], s.rotations)|
    ensures var s' := Run(s, steps);
            && Inv(s') && id in s'.sessions && s'.first[id] == s.first[id]
            && var chain, chain' := Chain(s.first[id], s.rotations), Chain(s'.first[id], s'.rotations);
               chain <= chain' && s'.sessions[id].current != chain[i]
  {
    RunKeepsInv(s, steps);
    assert SessionOk(s, id);
    if steps != [] {
      var front, last := steps[..|steps| - 1], steps[|steps| - 1];
      NeverCurrentAgain(s, front, id, i);
      var mid := Run(s, front);
      ChainExtends(mid, last, id);
      assert SessionOk(Run(s, steps), id);
    }
  }

  lemma ChainExtends(s: System, step: Step, id: SessionId)
    requires Inv(s) && id in s.sessions
    ensures var s' := Next(s, step);
            id in s'.sessions && s'.first[id] == s.first[id]
            && Chain(s.first[id], s.rotations) <= Chain(s.first[id], s'.rotations)
  {
    var s' := Next(s, step);
    if s'.rotations != s.rotations {
      assert s'.rotations[..|s'.rotations| - 1] == s.rotations;
    }
  }

  /** Of two callers that passed the checks with one token, the second to swap never rotates; it must revoke. */
  lemma SecondSwapLoses(s: System, winner: CallerId, loser: CallerId, secret: nat, between: seq<Step>, secret': nat)
    requires Inv(s) && winner in s.callers && s.callers[winner].Checked? && loser in s.callers
    requires s.callers[winner].token == s.callers[loser].token
    requires |Next(s, SwapTokens(winner, secret)).rotations| > |s.rotations|
    requires var mid := Run(Next(s, SwapTokens(winner, secret)), between);
             && loser in mid.callers && mid.callers[loser].Checked?
                && mid.callers[loser].token == s.callers[winner].token
             && Token(mid.callers[loser].token.sessionId, secret') !in mid.minted
    ensures var end := Next(Run(Next(s, SwapTokens(winner, secret)), between), SwapTokens(loser, secret'));
            && end.rotations == Run(Next(s, SwapTokens(winner, secret)), between).rotations
            && loser in end.callers && end.callers[loser].MustRevoke?
  {
    var id := s.callers[winner].token.sessionId;
    var won := Next(s, SwapTokens(winner, secret));
    NextKeepsInv(s, SwapTokens(winner, secret));
    assert SessionOk(s, id);
    assert won.rotations[..|won.rotations| - 1] == s.rotations;
    var n := |Chain(s.first[id], s.rotations)|;
    assert Chain(won.first[id], won.rotations)[n - 1] == s.callers[winner].token;
    NeverCurrentAgain(won, between, id, n - 1);
  }

  // ---------------------------------------------------------------------------------------------
  // The service
  // ---------------------------------------------------------------------------------------------

  datatype AuthError = InvalidRefreshToken | ReuseOfRefreshToken | ConcurrentRefreshDetected | OrganizationAccessDenied

  /** One refresh with nothing in between. */
  function RefreshTx(sessions: Sessions, token: Token, usable: bool, replacement: Token)
    : (Sessions, Result<Token, AuthError>)
  {
    if token.sessionId !in sessions then (sessions, Err(InvalidRefreshToken)) else
    var row := sessions[token.sessionId];
    match Judge(RefreshCall, row, token, usable)
    case Reuse => (RevokeDevice(sessions, row.userId, row.deviceId, ReuseDetected), Err(ReuseOfRefreshToken))
    case Unusable => (sessions, Err(InvalidRefreshToken))
    case Proceed => (Swap(sessions, token.sessionId, token, replacement, row.organizationId), Ok(replacement))
  }

  /** Using a token twice in a row: the first use rotates, the second revokes every session of the device. */
  lemma ReplayAfterRotationRevokes(sessions: Sessions, token: Token, replacement: Token, again: Token, usable: bool)
    requires RefreshTx(sessions, token, true, replacement).1.Ok? && replacement != token
    ensures var rotated := RefreshTx(sessions, token, true, replacement).0;
            var (after, answer) := RefreshTx(rotated, token, usable, again);
            && answer == Err(ReuseOfRefreshToken)
            && forall id :: (id in after && after[id].userId == sessions[token.sessionId].userId
                             && after[id].deviceId == sessions[token.sessionId].deviceId) ==>
                               after[id].status == Revoked
  {
  }

  /** The sessions that may still refresh. */
  ghost function Living(sessions: Sessions): set<SessionId> {
    set id | id in sessions && sessions[id].status == Active
  }

  ghost function OfUser(sessions: Sessions, userId: UserId): set<SessionId> {
    set id | id in sessions && sessions[id].userId == userId
  }

  ghost function OfDevice(sessions: Sessions, userId: UserId, deviceId: DeviceId): set<SessionId> {
    set id | id in sessions && sessions[id].userId == userId && sessions[id].deviceId == deviceId
  }

  /** Outside `touched` every row is as it was; inside, nothing but status and reason differs. */
  ghost predicate OnlyRevokes(before: Sessions, after: Sessions, touched: set<SessionId>) {
    && after.Keys == before.Keys
    && (forall id :: id in before && id !in touched ==> after[id] == before[id])
    && (forall id :: id in before ==>
          after[id].(status := before[id].status, reason := before[id].reason) == before[id])
  }

  class AuthDatabase {
    var sessions: Sessions

    constructor ()
      ensures sessions == map[]
    {
      sessions := map[];
    }

    method LoadSession(id: SessionId) returns (snapshot: Option<Session>)
      ensures snapshot.Some? <==> id in sessions
      ensures snapshot.Some? ==> snapshot.value == sessions[id]
    {
      snapshot := if id in sessions then Some(sessions[id]) else None;
    }

    /** The conditional update; it reports how many rows it changed. */
    method SwapRow(id: SessionId, provided: Token, replacement: Token, organizationId: Option<OrganizationId>)
      returns (updated: nat)
      modifies this
      ensures sessions == Swap(old(sessions), id, provided, replacement, organizationId)
      ensures updated == if SwapMatches(old(sessions), id, provided) then 1 else 0
    {
      updated := 0;
      if id in sessions {
        var row := sessions[id];
        if row.status == Active && row.current == provided {
          sessions := sessions[id := row.(organizationId := organizationId, previous := Some(provided),
                                          current := replacement)];
          updated := 1;
        }
      }
    }

    method RevokeDeviceSessions(userId: UserId, deviceId: DeviceId, reason: RevokeReason)
      modifies this
      ensures sessions == RevokeDevice(old(sessions), userId, deviceId, reason)
      ensures Living(sessions) == Living(old(sessions)) - OfDevice(old(sessions), userId, deviceId)
      ensures OnlyRevokes(old(sessions), sessions, Living(old(sessions)) * OfDevice(old(sessions), userId, deviceId))
    {
      sessions := RevokeDevice(sessions, userId, deviceId, reason);
    }

    method RotateSession(id: SessionId, snapshot: Session, provided: Token, organizationId: Option<OrganizationId>,
                         replacement: Token)
      returns (result: Result<Token, AuthError>)
      modifies this
      ensures SwapMatches(old(sessions), id, provided) ==>
                result == Ok(replacement) && sessions == Swap(old(sessions), id, provided, replacement, organizationId)
      ensures !SwapMatches(old(sessions), id, provided) ==>
                result == Err(ConcurrentRefreshDetected)
                && sessions == RevokeDevice(old(sessions), snapshot.userId, snapshot.deviceId, ConcurrentRefresh)
    {
      var updated := SwapRow(id, provided, replacement, organizationId);
      if updated != 1 {
        RevokeDeviceSessions(snapshot.userId, snapshot.deviceId, ConcurrentRefresh);
        return Err(ConcurrentRefreshDetected);
      }
      result := Ok(replacement);
    }

    /** `usable`: unexpired, and user, device and membership active when the row was read. */
    method Refresh(token: Token, usable: bool, replacement: Token) returns (result: Result<Token, AuthError>)
      modifies this
      ensures (sessions, result) == RefreshTx(old(sessions), token, usable, replacement)
    {
      var snapshot := LoadSession(token.sessionId);
      if snapshot.None? {
        return Err(InvalidRefreshToken);
      }
      var row := snapshot.value;
      if row.previous == Some(token) {
        RevokeDeviceSessions(row.userId, row.deviceId, ReuseDetected);
        return Err(ReuseOfRefreshToken);
      }
      if row.status != Active || !usable || row.current != token {
        return Err(InvalidRefreshToken);
      }
      result := RotateSession(token.sessionId, row, token, row.organizationId, replacement);
    }

    /** The session switches organization with its current token; a replayed token is refused but revokes nothing. */
    method SwitchOrganization(sessionId: SessionId, userId: UserId, token: Token, usable: bool,
                              target: OrganizationId, member: bool, replacement: Token)
      returns (result: Result<Token, AuthError>)
      modifies this
      ensures result.Ok? <==>
                && token.sessionId == sessionId && sessionId in old(sessions)
                   && old(sessions)[sessionId].userId == userId
                && old(sessions)[sessionId].status == Active && old(sessions)[sessionId].current == token
                && usable && member
      ensures result.Err? ==> sessions == old(sessions)
      ensures result.Ok? ==>
                && result == Ok(replacement)
                && sessions == old(sessions)[sessionId := old(sessions)[sessionId].(
                                 organizationId := Some(target), previous := Some(token), current := replacement)]
    {
      if token.sessionId != sessionId {
        return Err(InvalidRefreshToken);
      }
      var snapshot := LoadSession(sessionId);
      if snapshot.None? || snapshot.value.userId != userId {
        return Err(InvalidRefreshToken);
      }
      var row := snapshot.value;
      if row.status != Active || !usable || row.current != token {
        return Err(InvalidRefreshToken);
      }
      if !member {
        return Err(OrganizationAccessDenied);
      }
      result := RotateSession(sessionId, row, token, Some(target), replacement);
    }

    method Logout(id: SessionId, userId: UserId)
      modifies this
      ensures sessions == LogoutOne(old(sessions), id, userId)
      ensures Living(sessions) == Living(old(sessions)) - ({id} * OfUser(old(sessions), userId))
      ensures OnlyRevokes(old(sessions), sessions, {id} * OfUser(old(sessions), userId))
    {
      if id in sessions && sessions[id].userId == userId {
        sessions := sessions[id := RevokeRow(sessions[id], LoggedOut)];
      }
    }

    method LogoutAll(userId: UserId)
      modifies this
      ensures sessions == RevokeUser(old(sessions), userId)
      ensures Living(sessions) == Living(old(sessions)) - OfUser(old(sessions), userId)
      ensures OnlyRevokes(old(sessions), sessions, Living(old(sessions)) * OfUser(old(sessions), userId))
    {
      sessions := RevokeUser(sessions, userId);
    }
  }
}
