/**
 * Refresh-token rotation: a caller reads the session, checks its token against the row it read, and then swaps
 * the token with a conditional update. Callers interleave freely between these three moments.
 * Token hashes are taken to be injective, so a token stands for its hash.
 */
module AuthSessions {
  import opened Wrappers

  type SessionId(==, !new, 0) = nat
  type UserId = nat
  type DeviceId = nat
  type OrganizationId = nat
  type CallerId = nat

  /** A refresh token names its session and carries a random secret. */
  datatype Token = Token(sessionId: SessionId, secret: nat)

  datatype SessionStatus = Active | Revoked

  datatype RevokeReason = ReuseDetected | ConcurrentRefresh | LoggedOut | LoggedOutEverywhere | AssignmentRevoked

  datatype Session = Session(
    userId: UserId, deviceId: DeviceId, organizationId: Option<OrganizationId>,
    status: SessionStatus, current: Token, previous: Option<Token>, reason: Option<RevokeReason>)

  type Sessions = map<SessionId, Session>

  // ---------------------------------------------------------------------------------------------
  // Single statements
  // ---------------------------------------------------------------------------------------------

  function RevokeRow(session: Session, reason: RevokeReason): Session {
    session.(status := Revoked, reason := Some(reason))
  }

  /** Every ACTIVE session of a user on a device. */
  function RevokeDevice(sessions: Sessions, userId: UserId, deviceId: DeviceId, reason: RevokeReason): Sessions {
    map id | id in sessions ::
      var row := sessions[id];
      if row.userId == userId && row.deviceId == deviceId && row.status == Active then RevokeRow(row, reason) else row
  }

  function RevokeUser(sessions: Sessions, userId: UserId): Sessions {
    map id | id in sessions ::
      var row := sessions[id];
      if row.userId == userId && row.status == Active then RevokeRow(row, LoggedOutEverywhere) else row
  }

  function RevokeAssignment(sessions: Sessions, deviceId: DeviceId, organizationId: OrganizationId): Sessions {
    map id | id in sessions ::
      var row := sessions[id];
      if row.deviceId == deviceId && row.organizationId == Some(organizationId) && row.status == Active
      then RevokeRow(row, AssignmentRevoked) else row
  }

  function LogoutOne(sessions: Sessions, id: SessionId, userId: UserId): Sessions {
    if id in sessions && sessions[id].userId == userId
    then sessions[id := RevokeRow(sessions[id], LoggedOut)] else sessions
  }

  predicate SwapMatches(sessions: Sessions, id: SessionId, provided: Token) {
    id in sessions && sessions[id].status == Active && sessions[id].current == provided
  }

  /** The conditional update of `rotateSession`. */
  function Swap(sessions: Sessions, id: SessionId, provided: Token, replacement: Token,
                organizationId: Option<OrganizationId>): Sessions
  {
    if SwapMatches(sessions, id, provided)
    then sessions[id := sessions[id].(organizationId := organizationId, previous := Some(provided),
                                      current := replacement)]
    else sessions
  }

  // ---------------------------------------------------------------------------------------------
  // Interleaved callers
  // ---------------------------------------------------------------------------------------------

  datatype Operation = RefreshCall | SwitchCall(organizationId: OrganizationId)

  /** Where a caller is between two database statements. */
  datatype Caller =
    | Loaded(operation: Operation, snapshot: Session, token: Token)
    | Checked(operation: Operation, snapshot: Session, token: Token)
    | MustRevoke(snapshot: Session, token: Token, reason: RevokeReason)

  /** Successful swaps, oldest first. */
  datatype Rotation = Rotation(from: Token, to: Token)

  datatype System = System(
    sessions: Sessions, callers: map<CallerId, Caller>,
    first: map<SessionId, Token>, rotations: seq<Rotation>, minted: set<Token>)

  const NOBODY := System(map[], map[], map[], [], {})

  datatype Step =
    | Login(id: SessionId, userId: UserId, deviceId: DeviceId, organizationId: Option<OrganizationId>, secret: nat)
    | Load(caller: CallerId, operation: Operation, token: Token)
    | Check(caller: CallerId, usable: bool)
    | SwapTokens(caller: CallerId, secret: nat)
    | RevokeSessions(caller: CallerId)
    | Abandon(caller: CallerId)
    | Logout(id: SessionId, userId: UserId)
    | LogoutAll(userId: UserId)
    | RemoveAssignment(deviceId: DeviceId, organization: OrganizationId)

  datatype Verdict = Reuse | Unusable | Proceed

  /** The checks on the row that was read; `usable` says it is unexpired and user, device and membership are active. */
  function Judge(operation: Operation, snapshot: Session, token: Token, usable: bool): Verdict {
    if operation.RefreshCall? && snapshot.previous == Some(token) then Reuse
    else if snapshot.status != Active || !usable || snapshot.current != token then Unusable
    else Proceed
  }

  function TargetOrganization(operation: Operation, snapshot: Session): Option<OrganizationId> {
    match operation
    case RefreshCall => snapshot.organizationId
    case SwitchCall(organizationId) => Some(organizationId)
  }

  function Next(s: System, step: Step): System {
    match step
    case Login(id, userId, deviceId, organizationId, secret) =>
      var token := Token(id, secret);
      if id in s.sessions || token in s.minted then s else
      s.(sessions := s.sessions[id := Session(userId, deviceId, organizationId, Active, token, None, None)],
         first := s.first[id := token], minted := s.minted + {token})
    case Load(caller, operation, token) =>
      if caller in s.callers || token.sessionId !in s.sessions then s
      else s.(callers := s.callers[caller := Loaded(operation, s.sessions[token.sessionId], token)])
    case Check(caller, usable) =>
      if caller !in s.callers || !s.callers[caller].Loaded? then s else
      var c := s.callers[caller];
      (match Judge(c.operation, c.snapshot, c.token, usable)
       case Reuse => s.(callers := s.callers[caller := MustRevoke(c.snapshot, c.token, ReuseDetected)])
       case Unusable => s.(callers := s.callers - {caller})
       case Proceed => s.(callers := s.callers[caller := Checked(c.operation, c.snapshot, c.token)]))
    case SwapTokens(caller, secret) =>
      if caller !in s.callers || !s.callers[caller].Checked? then s else
      var c := s.callers[caller];
      var id := c.token.sessionId;
      var token := Token(id, secret);
      if token in s.minted then s
      else if SwapMatches(s.sessions, id, c.token) then
        System(Swap(s.sessions, id, c.token, token, TargetOrganization(c.operation, c.snapshot)), s.callers - {caller},
               s.first, s.rotations + [Rotation(c.token, token)], s.minted + {token})
      else s.(callers := s.callers[caller := MustRevoke(c.snapshot, c.token, ConcurrentRefresh)])
    case RevokeSessions(caller) =>
      if caller !in s.callers || !s.callers[caller].MustRevoke? then s else
      var c := s.callers[caller];
      s.(sessions := RevokeDevice(s.sessions, c.snapshot.userId, c.snapshot.deviceId, c.reason),
         callers := s.callers - {caller})
    case Abandon(caller) => s.(callers := s.callers - {caller})
    case Logout(id, userId) => s.(sessions := LogoutOne(s.sessions, id, userId))
    case LogoutAll(userId) => s.(sessions := RevokeUser(s.sessions, userId))
    case RemoveAssignment(deviceId, organization) =>
      s.(sessions := RevokeAssignment(s.sessions, deviceId, organization))
  }

  function Run(s: System, steps: seq<Step>): System {
    if steps == [] then s else Next(Run(s, steps[..|steps| - 1]), steps[|steps| - 1])
  }

  // ---------------------------------------------------------------------------------------------
  // The chain of a session
  // ---------------------------------------------------------------------------------------------

  /** The tokens a session has had, oldest first: its first one, then the target of each of its rotations. */
  ghost function Chain(first: Token, rotations: seq<Rotation>): (chain: seq<Token>)
    ensures |chain| >= 1
  {
    if rotations == [] then [first] else
    var front, last := rotations[..|rotations| - 1], rotations[|rotations| - 1];
    if last.from.sessionId == first.sessionId then Chain(first, front) + [last.to] else Chain(first, front)
  }

  ghost function Last<T>(s: seq<T>): T
    requires s != []
  {
    s[|s| - 1]
  }

  ghost predicate Distinct(s: seq<Token>) {
    forall i, j :: 0 <= i < j < |s| ==> s[i] != s[j]
  }

  /** Every rotation started from the token that was newest in its session at that moment. */
  ghost predicate RotationsFollow(first: map<SessionId, Token>, rotations: seq<Rotation>) {
    forall k :: 0 <= k < |rotations| ==> FollowsAt(first, rotations, k)
  }

  ghost predicate FollowsAt(first: map<SessionId, Token>, rotations: seq<Rotation>, k: nat)
    requires k < |rotations|
  {
    var r := rotations[k];
    r.from.sessionId in first && r.to.sessionId == r.from.sessionId
    && r.from == Last(Chain(first[r.from.sessionId], rotations[..k]))
  }

  /** The stored hashes are the last two of the chain. */
  ghost predicate RowMatchesChain(row: Session, chain: seq<Token>)
    requires |chain| >= 1
  {
    && row.current == Last(chain)
    && row.previous == if |chain| == 1 then None else Some(chain[|chain| - 2])
  }

  ghost predicate SessionOk(s: System, id: SessionId) {
    && id in s.first && id in s.sessions && s.first[id].sessionId == id
    && var chain := Chain(s.first[id], s.rotations);
       && RowMatchesChain(s.sessions[id], chain)
       && Distinct(chain)
       && (forall i :: 0 <= i < |chain| ==> chain[i] in s.minted)
  }

  ghost predicate CallerOk(sessions: Sessions, c: Caller) {
    && c.token.sessionId in sessions
    && c.snapshot.userId == sessions[c.token.sessionId].userId
    && c.snapshot.deviceId == sessions[c.token.sessionId].deviceId
  }

  ghost predicate CallersOk(sessions: Sessions, callers: map<CallerId, Caller>) {
    forall c {:trigger callers[c]} :: c in callers ==> CallerOk(sessions, callers[c])
  }

  ghost predicate Inv(s: System) {
    && s.first.Keys == s.sessions.Keys
    && (forall id {:trigger SessionOk(s, id)} :: id in s.sessions ==> SessionOk(s, id))
    && CallersOk(s.sessions, s.callers)
    && RotationsFollow(s.first, s.rotations)
    && (forall k :: 0 <= k < |s.rotations| ==> s.rotations[k].from.sessionId in s.first)
  }

  /** A step that leaves tokens, users and devices of every session alone. */
  ghost predicate OnlyStatuses(sessions: Sessions, sessions': Sessions) {
    && sessions'.Keys == sessions.Keys
    && forall id :: id in sessions ==>
         && sessions'[id].current == sessions[id].current && sessions'[id].previous == sessions[id].previous
         && sessions'[id].userId == sessions[id].userId && sessions'[id].deviceId == sessions[id].deviceId
         && (sessions[id].status == Revoked ==> sessions'[id].status == Revoked)
  }

  lemma StatusesKeepCallers(sessions: Sessions, sessions': Sessions, callers: map<CallerId, Caller>)
    requires OnlyStatuses(sessions, sessions') && CallersOk(sessions, callers)
    ensures CallersOk(sessions', callers)
  {
    forall c | c in callers
      ensures CallerOk(sessions', callers[c])
    {
      assert CallerOk(sessions, callers[c]);
    }
  }

  lemma StatusStepKeepsInv(s: System, s': System)
    requires Inv(s) && OnlyStatuses(s.sessions, s'.sessions)
    requires s'.first == s.first && s'.rotations == s.rotations && s'.minted == s.minted
    requires CallersOk(s.sessions, s'.callers)
    ensures Inv(s')
  {
    forall id | id in s'.sessions
      ensures SessionOk(s', id)
    {
      assert SessionOk(s, id);
    }
    StatusesKeepCallers(s.sessions, s'.sessions, s'.callers);
  }

  /** Chains only look at rotations of their own session. */
  lemma {:induction false} ChainOfOthers(first: Token, rotations: seq<Rotation>)
    requires forall k :: 0 <= k < |rotations| ==> rotations[k].from.sessionId != first.sessionId
    ensures Chain(first, rotations) == [first]
    decreases |rotations|
  {
    if rotations != [] {
      ChainOfOthers(first, rotations[..|rotations| - 1]);
    }
  }

  lemma LoginKeepsInv(s: System, id: SessionId, userId: UserId, deviceId: DeviceId,
                      organizationId: Option<OrganizationId>, secret: nat)
    requires Inv(s)
    ensures Inv(Next(s, Login(id, userId, deviceId, organizationId, secret)))
  {
    var s' := Next(s, Login(id, userId, deviceId, organizationId, secret));
    if s' != s {
      var token := Token(id, secret);
      ChainOfOthers(token, s.rotations);
      forall i | i in s'.sessions
        ensures SessionOk(s', i)
      {
        if i != id {
          assert SessionOk(s, i);
        }
      }
      forall k | 0 <= k < |s.rotations|
        ensures FollowsAt(s'.first, s'.rotations, k)
      {
        assert FollowsAt(s.first, s.rotations, k);
      }
      forall c | c in s'.callers
        ensures CallerOk(s'.sessions, s'.callers[c])
      {
        assert CallerOk(s.sessions, s.callers[c]);
      }
    }
  }

  lemma LoadKeepsInv(s: System, caller: CallerId, operation: Operation, token: Token)
    requires Inv(s)
    ensures Inv(Next(s, Load(caller, operation, token)))
  {
    StatusStepKeepsInv(s, Next(s, Load(caller, operation, token)));
  }

  lemma CheckKeepsInv(s: System, caller: CallerId, usable: bool)
    requires Inv(s)
    ensures Inv(Next(s, Check(caller, usable)))
  {
    if caller in s.callers {
      assert CallerOk(s.sessions, s.callers[caller]);
    }
    StatusStepKeepsInv(s, Next(s, Check(caller, usable)));
  }

  /** A won swap makes the new token the end of its own session's chain and of no other. */
  lemma WonSwapExtendsChain(s: System, s': System, i: SessionId, id: SessionId, provided: Token, added: Token)
    requires SessionOk(s, i) && SwapMatches(s.sessions, id, provided) && provided.sessionId == id
    requires added !in s.minted && s'.minted == s.minted + {added}
    requires s'.first == s.first && s'.rotations == s.rotations + [Rotation(provided, added)]
    requires i in s'.sessions
    requires if i == id then s'.sessions[i].current == added && s'.sessions[i].previous == Some(provided)
             else s'.sessions[i] == s.sessions[i]
    ensures SessionOk(s', i)
  {
    var chain := Chain(s.first[i], s.rotations);
    assert s'.rotations[..|s'.rotations| - 1] == s.rotations;
    assert Chain(s'.first[i], s'.rotations) == if i == id then chain + [added] else chain;
  }

  lemma WonSwapFollows(s: System, s': System, id: SessionId, provided: Token, added: Token)
    requires RotationsFollow(s.first, s.rotations) && SessionOk(s, id)
    requires SwapMatches(s.sessions, id, provided) && provided.sessionId == id == added.sessionId
    requires s'.first == s.first && s'.rotations == s.rotations + [Rotation(provided, added)]
    ensures RotationsFollow(s'.first, s'.rotations)
  {
    forall k | 0 <= k < |s'.rotations|
      ensures FollowsAt(s'.first, s'.rotations, k)
    {
      if k < |s.rotations| {
        assert FollowsAt(s.first, s.rotations, k);
        assert s'.rotations[..k] == s.rotations[..k];
      } else {
        assert s'.rotations[..k] == s.rotations;
      }
    }
  }

  lemma SwapKeepsInv(s: System, caller: CallerId, secret: nat)
    requires Inv(s)
    ensures Inv(Next(s, SwapTokens(caller, secret)))
  {
    var s' := Next(s, SwapTokens(caller, secret));
    if caller in s.callers && s.callers[caller].Checked? {
      var c := s.callers[caller];
      var id, added := c.token.sessionId, Token(c.token.sessionId, secret);
      assert CallerOk(s.sessions, c);
      if added !in s.minted && SwapMatches(s.sessions, id, c.token) {
        forall i | i in s'.sessions
          ensures SessionOk(s', i)
        {
          assert SessionOk(s, i);
          WonSwapExtendsChain(s, s', i, id, c.token, added);
        }
        assert SessionOk(s, id);
        WonSwapFollows(s, s', id, c.token, added);
        forall d | d in s'.callers
          ensures CallerOk(s'.sessions, s'.callers[d])
        {
          assert CallerOk(s.sessions, s.callers[d]);
        }
      } else {
        StatusStepKeepsInv(s, s');
      }
    }
  }

  lemma RevokeKeepsInv(s: System, step: Step)
    requires Inv(s)
    requires step.RevokeSessions? || step.Abandon? || step.Logout? || step.LogoutAll? || step.RemoveAssignment?
    ensures Inv(Next(s, step)) && OnlyStatuses(s.sessions, Next(s, step).sessions)
  {
    StatusStepKeepsInv(s, Next(s, step));
  }

  lemma NextKeepsInv(s: System, step: Step)
    requires Inv(s)
    ensures Inv(Next(s, step))
  {
    match step
    case Login(id, userId, deviceId, organizationId, secret) =>
      LoginKeepsInv(s, id, userId, deviceId, organizationId, secret);
    case Load(caller, operation, token) => LoadKeepsInv(s, caller, operation, token);
    case Check(caller, usable) => CheckKeepsInv(s, caller, usable);
    case SwapTokens(caller, secret) => SwapKeepsInv(s, caller, secret);
    case _ => RevokeKeepsInv(s, step);
  }

  lemma {:induction false} RunKeepsInv(s: System, steps: seq<Step>)
    requires Inv(s)
    ensures Inv(Run(s, steps))
  {
    if steps != [] {
      RunKeepsInv(s, steps[..|steps| - 1]);
      NextKeepsInv(Run(s, steps[..|steps| - 1]), steps[|steps| - 1]);
    }
  }
}
