/**
 * What each step of the session protocol writes, and that a session changes organization only when its user switches:
 * a refresh keeps it, whatever happened between its reading and its writing.
 */
module AuthEffects {
  import opened Wrappers
  import opened AuthSessions
  import opened AuthSafety

  // ---------------------------------------------------------------------------------------------
  // Step by step
  // ---------------------------------------------------------------------------------------------

  /** A login adds one active session with its first token, unless the key or the token is taken. */
  lemma LoginIsRecorded(s: System, id: SessionId, userId: UserId, deviceId: DeviceId,
                        organizationId: Option<OrganizationId>, secret: nat)
    ensures var s' := Next(s, Login(id, userId, deviceId, organizationId, secret));
            if id in s.sessions || Token(id, secret) in s.minted then s' == s else
              && s'.sessions.Keys == s.sessions.Keys + {id}
              && (forall i :: i in s.sessions ==> s'.sessions[i] == s.sessions[i])
              && s'.callers == s.callers && s'.rotations == s.rotations
              && var row := s'.sessions[id];
                 && row.userId == userId && row.deviceId == deviceId && row.organizationId == organizationId
                 && row.status == Active && row.current == Token(id, secret)
                 && row.previous == None && row.reason == None
  {
  }

  /**
   * What the checks make of a caller: reuse must be revoked, a usable current token may rotate, the rest is refused.
   */
  lemma CheckIsRecorded(s: System, caller: CallerId, usable: bool)
    requires caller in s.callers && s.callers[caller].Loaded?
    ensures var s', c := Next(s, Check(caller, usable)), s.callers[caller];
            && s'.sessions == s.sessions && s'.rotations == s.rotations
            && (forall other :: other != caller ==>
                  (other in s'.callers <==> other in s.callers)
                  && (other in s.callers ==> s'.callers[other] == s.callers[other]))
            && var reused := c.operation == RefreshCall && c.snapshot.previous == Some(c.token);
               var current := c.snapshot.status == Active && usable && c.snapshot.current == c.token;
               if reused then
                 caller in s'.callers && s'.callers[caller] == MustRevoke(c.snapshot, c.token, ReuseDetected)
               else if current then
                 caller in s'.callers && s'.callers[caller] == Checked(c.operation, c.snapshot, c.token)
               else caller !in s'.callers
  {
  }

  /** The organization a won swap writes. */
  ghost predicate WritesOrganization(c: Caller, organizationId: Option<OrganizationId>)
    requires c.Checked?
  {
    match c.operation
    case RefreshCall => organizationId == c.snapshot.organizationId
    case SwitchCall(target) => organizationId == Some(target)
  }

  /**
   * The conditional update: it wins exactly on an active row that still holds the token that was presented, and then
   * writes both tokens and the organization of that row alone; otherwise the caller must revoke the device.
   */
  lemma SwapIsRecorded(s: System, caller: CallerId, secret: nat)
    requires caller in s.callers && s.callers[caller].Checked?
    requires Token(s.callers[caller].token.sessionId, secret) !in s.minted
    ensures var s', c := Next(s, SwapTokens(caller, secret)), s.callers[caller];
            var id, token := c.token.sessionId, Token(c.token.sessionId, secret);
            if id in s.sessions && s.sessions[id].status == Active && s.sessions[id].current == c.token then
              && s'.sessions.Keys == s.sessions.Keys
              && (forall i :: i in s.sessions && i != id ==> s'.sessions[i] == s.sessions[i])
              && s'.sessions[id].current == token && s'.sessions[id].previous == Some(c.token)
              && WritesOrganization(c, s'.sessions[id].organizationId)
              && s'.sessions[id] == s.sessions[id].(current := token, previous := Some(c.token),
                                                    organizationId := s'.sessions[id].organizationId)
              && s'.rotations == s.rotations + [Rotation(c.token, token)]
              && s'.callers == s.callers - {caller} && s'.minted == s.minted + {token}
            else
              && s'.sessions == s.sessions && s'.rotations == s.rotations && s'.callers.Keys == s.callers.Keys
              && s'.callers[caller] == MustRevoke(c.snapshot, c.token, ConcurrentRefresh)
  {
  }

  /** The rows a revoking step ends; `reason` is what it writes there. */
  ghost predicate Ends(s: System, step: Step, row: Session, id: SessionId, reason: RevokeReason) {
    match step
    case RevokeSessions(caller) =>
      && caller in s.callers && s.callers[caller].MustRevoke? && reason == s.callers[caller].reason
      && row.userId == s.callers[caller].snapshot.userId && row.deviceId == s.callers[caller].snapshot.deviceId
      && row.status == Active
    case Logout(one, userId) => id == one && row.userId == userId && reason == LoggedOut
    case LogoutAll(userId) => row.userId == userId && row.status == Active && reason == LoggedOutEverywhere
    case RemoveAssignment(deviceId, organization) =>
      && row.deviceId == deviceId && row.organizationId == Some(organization) && row.status == Active
      && reason == AssignmentRevoked
    case _ => false
  }

  /** Revocations write status and reason of exactly the rows they name. */
  lemma RevocationIsRecorded(s: System, step: Step, id: SessionId, reason: RevokeReason)
    requires step.RevokeSessions? || step.Logout? || step.LogoutAll? || step.RemoveAssignment?
    requires id in s.sessions
    ensures var s', row := Next(s, step), s.sessions[id];
            && s'.sessions.Keys == s.sessions.Keys && s'.rotations == s.rotations
            && (Ends(s, step, row, id, reason) ==>
                  s'.sessions[id] == row.(status := Revoked, reason := Some(reason)))
            && ((forall r :: !Ends(s, step, row, id, r)) ==> s'.sessions[id] == row)
  {
    var row := s.sessions[id];
    match step {
      case RevokeSessions(caller) =>
        if caller in s.callers && s.callers[caller].MustRevoke? {
          assert Ends(s, step, row, id, s.callers[caller].reason) || Next(s, step).sessions[id] == row;
        }
      case Logout(one, userId) => assert Ends(s, step, row, id, LoggedOut) || Next(s, step).sessions[id] == row;
      case LogoutAll(userId) =>
        assert Ends(s, step, row, id, LoggedOutEverywhere) || Next(s, step).sessions[id] == row;
      case RemoveAssignment(deviceId, organization) =>
        assert Ends(s, step, row, id, AssignmentRevoked) || Next(s, step).sessions[id] == row;
    }
  }

  // ---------------------------------------------------------------------------------------------
  // The organization of a session
  // ---------------------------------------------------------------------------------------------

  /** While a session still holds the token a caller read, it is still in the organization the caller read. */
  ghost predicate SnapshotOk(s: System, c: Caller) {
    c.Loaded? || c.Checked? ==>
      && c.token.sessionId in s.sessions && c.snapshot.current in s.minted
      && (c.Checked? ==> c.snapshot.current == c.token)
      && (s.sessions[c.token.sessionId].current == c.snapshot.current ==>
            s.sessions[c.token.sessionId].organizationId == c.snapshot.organizationId)
  }

  ghost predicate SnapshotsOk(s: System) {
    forall c {:trigger s.callers[c]} :: c in s.callers ==> SnapshotOk(s, s.callers[c])
  }

  lemma CurrentIsMinted(s: System, id: SessionId)
    requires Inv(s) && id in s.sessions
    ensures s.sessions[id].current in s.minted
  {
    assert SessionOk(s, id);
  }

  lemma NextKeepsSnapshots(s: System, step: Step)
    requires Inv(s) && SnapshotsOk(s)
    ensures SnapshotsOk(Next(s, step))
  {
    var s' := Next(s, step);
    forall c | c in s'.callers
      ensures SnapshotOk(s', s'.callers[c])
    {
      if c in s.callers {
        assert SnapshotOk(s, s.callers[c]);
      } else {
        CurrentIsMinted(s, s'.callers[c].token.sessionId);
      }
    }
  }

  lemma {:induction false} RunKeepsSnapshots(steps: seq<Step>)
    ensures Inv(Run(NOBODY, steps)) && SnapshotsOk(Run(NOBODY, steps))
  {
    NobodyInv();
    RunKeepsInv(NOBODY, steps);
    if steps != [] {
      RunKeepsSnapshots(steps[..|steps| - 1]);
      NextKeepsSnapshots(Run(NOBODY, steps[..|steps| - 1]), steps[|steps| - 1]);
    }
  }

  /** The step is a won swap of a caller that switches the session's organization to the target. */
  ghost predicate Switches(s: System, step: Step, id: SessionId, target: OrganizationId) {
    && step.SwapTokens? && step.caller in s.callers && s.callers[step.caller].Checked?
    && s.callers[step.caller].token.sessionId == id
    && s.callers[step.caller].operation == SwitchCall(target)
    && |Next(s, step).rotations| > |s.rotations|
  }

  /**
   * In every run a session's organization changes only by a won switch, and then to its target: a refresh that read
   * the session before a switch cannot bring the old organization back.
   */
  lemma OrganizationChangesOnlyBySwitch(steps: seq<Step>, step: Step, id: SessionId)
    requires id in Run(NOBODY, steps).sessions
    ensures var s, s' := Run(NOBODY, steps), Next(Run(NOBODY, steps), step);
            && id in s'.sessions
            && (forall target: OrganizationId ::
                  Switches(s, step, id, target) ==> s'.sessions[id].organizationId == Some(target))
            && ((forall target: OrganizationId :: !Switches(s, step, id, target)) ==>
                  s'.sessions[id].organizationId == s.sessions[id].organizationId)
  {
    var s := Run(NOBODY, steps);
    RunKeepsSnapshots(steps);
    if step.SwapTokens? && step.caller in s.callers && s.callers[step.caller].Checked? {
      var c := s.callers[step.caller];
      assert SnapshotOk(s, c);
      assert c.operation.SwitchCall? && c.token.sessionId == id && |Next(s, step).rotations| > |s.rotations| ==>
               Switches(s, step, id, c.operation.organizationId);
    }
  }

  // ---------------------------------------------------------------------------------------------
  // A call with nothing in between
  // ---------------------------------------------------------------------------------------------

  /** Exactly how a refresh answers, and what it leaves. */
  lemma RefreshIsRecorded(sessions: Sessions, token: Token, usable: bool, replacement: Token)
    ensures var (after, answer) := RefreshTx(sessions, token, usable, replacement);
            if token.sessionId !in sessions then after == sessions && answer == Err(InvalidRefreshToken) else
              var row := sessions[token.sessionId];
              if row.previous == Some(token) then
                && answer == Err(ReuseOfRefreshToken) && after.Keys == sessions.Keys
                && (forall id :: id in sessions ==>
                      after[id] ==
                        if sessions[id].userId == row.userId && sessions[id].deviceId == row.deviceId
                           && sessions[id].status == Active
                        then sessions[id].(status := Revoked, reason := Some(ReuseDetected)) else sessions[id])
              else if row.status == Active && usable && row.current == token then
                && answer == Ok(replacement)
                && after == sessions[token.sessionId := row.(previous := Some(token), current := replacement)]
              else after == sessions && answer == Err(InvalidRefreshToken)
  {
  }
}
