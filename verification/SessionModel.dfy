/**
  Operator sign-in: single-use login states, the callbacks that turn one into a session, and sessions that are
  bound to a terminal and end by age, idleness, revocation or sign-out. Every store call is one step.
 */
module SessionModel {
  import opened Wrappers

  datatype Policy = Policy(loginTtl: nat, absolute: nat, idle: nat)

  datatype Login = Login(binding: string, terminal: string, expiresAt: nat)

  datatype Reason = EXPIRED | IDLE | USER_DISABLED | REVOKED | LOGOUT

  // `login` records which sign-in the session came from; no call reads it.
  datatype Session = Session(user: string, terminal: string, expiresAt: nat, lastSeen: nat, ended: Option<Reason>,
                             login: string)

  // What happened, in order; no call reads it.
  datatype Entry =
    | Opened(sid: string, login: string, terminal: string, at: nat)
    | Resolved(sid: string, terminal: string, at: nat)
    | Refused(sid: string)
    | Closed(sid: string)

  datatype State = State(policy: Policy, clock: nat, active: map<string, bool>, logins: map<string, Login>,
                         callbacks: map<nat, string>, sessions: map<string, Session>, used: set<string>,
                         log: seq<Entry>)

  datatype Event =
    | BeginLogin(state: string, binding: string, terminal: string)
    | Callback(pid: nat, state: string, binding: string)
    | GiveUp(pid: nat)
    | Open(pid: nat, sid: string, user: string, terminal: string)
    | Resolve(sid: string, terminal: string)
    | End(sid: string, reason: Reason)
    | SetActive(user: string, isActive: bool)
    | MarkDormant(user: string)
    | Tick(seconds: nat)

  // ---- Login states -------------------------------------------------------------------------------

  /** Expired rows are cleared on the way; the state is a fresh random token. */
  function WithLogin(logins: map<string, Login>, now: nat, state: string, l: Login): map<string, Login> {
    (map k | k in logins && now <= logins[k].expiresAt :: logins[k])[state := l]
  }

  // The row is deleted whether or not it then validates.
  function WithoutLogin(logins: map<string, Login>, state: string): map<string, Login> { logins - {state} }

  predicate LoginValid(logins: map<string, Login>, state: string, binding: string, now: nat) {
    state in logins && now < logins[state].expiresAt && logins[state].binding == binding
  }

  // ---- Sessions -----------------------------------------------------------------------------------

  datatype Verdict = NoSession | AlreadyEnded | EndNow(reason: Reason) | Valid

  /** The checks on a presented session, in their order. */
  function Judge(p: Policy, active: map<string, bool>, sessions: map<string, Session>, now: nat, sid: string,
                 terminal: string): Verdict {
    if sid !in sessions || sessions[sid].user !in active then NoSession
    else
      var x := sessions[sid];
      if x.ended.Some? then AlreadyEnded
      else if x.expiresAt <= now then EndNow(EXPIRED)
      else if x.lastSeen + p.idle < now then EndNow(IDLE)
      else if !active[x.user] then EndNow(USER_DISABLED)
      else if x.terminal != terminal then EndNow(REVOKED)
      else Valid
  }

  function Judged(sessions: map<string, Session>, now: nat, sid: string, v: Verdict): map<string, Session> {
    if sid !in sessions then sessions
    else match v
      case EndNow(reason) => sessions[sid := sessions[sid].(ended := Some(reason))]
      case Valid => sessions[sid := sessions[sid].(lastSeen := now)]
      case _ => sessions
  }

  function Ended(sessions: map<string, Session>, sid: string, reason: Reason): map<string, Session> {
    if sid in sessions && sessions[sid].ended.None? then sessions[sid := sessions[sid].(ended := Some(reason))] else sessions
  }

  // Locking a dormant user ends all their open sessions.
  function AllEnded(sessions: map<string, Session>, user: string): map<string, Session> {
    map sid | sid in sessions ::
      if sessions[sid].user == user && sessions[sid].ended.None? then sessions[sid].(ended := Some(USER_DISABLED))
      else sessions[sid]
  }

  // ---- The steps ----------------------------------------------------------------------------------

  function BeginStep(s: State, state: string, binding: string, terminal: string): State {
    if state in s.used then s
    else s.(logins := WithLogin(s.logins, s.clock, state, Login(binding, terminal, s.clock + s.policy.loginTtl)),
            used := s.used + {state})
  }

  function CallbackStep(s: State, pid: nat, state: string, binding: string): State {
    if pid in s.callbacks then s
    else
      var taken := s.(logins := WithoutLogin(s.logins, state));
      if LoginValid(s.logins, state, binding, s.clock) then taken.(callbacks := s.callbacks[pid := state]) else taken
  }

  // The session is bound to the terminal of the callback; the login state's own terminal is not compared.
  function OpenStep(s: State, pid: nat, sid: string, user: string, terminal: string): State {
    if pid !in s.callbacks || sid in s.sessions then s
    else
      var login := s.callbacks[pid];
      s.(sessions := s.sessions[sid := Session(user, terminal, s.clock + s.policy.absolute, s.clock, None, login)],
         callbacks := s.callbacks - {pid},
         log := s.log + [Opened(sid, login, terminal, s.clock)])
  }

  function ResolveStep(s: State, sid: string, terminal: string): State {
    var v := Judge(s.policy, s.active, s.sessions, s.clock, sid, terminal);
    s.(sessions := Judged(s.sessions, s.clock, sid, v),
       log := if v.NoSession? then s.log
              else s.log + [if v.Valid? then Resolved(sid, terminal, s.clock) else Refused(sid)])
  }

  function EndStep(s: State, sid: string, reason: Reason): State {
    if sid !in s.sessions then s
    else s.(sessions := Ended(s.sessions, sid, reason), log := s.log + [Closed(sid)])
  }

  function Step(s: State, e: Event): State {
    match e
    case BeginLogin(state, binding, terminal) => BeginStep(s, state, binding, terminal)
    case Callback(pid, state, binding) => CallbackStep(s, pid, state, binding)
    case GiveUp(pid) => s.(callbacks := s.callbacks - {pid})
    case Open(pid, sid, user, terminal) => OpenStep(s, pid, sid, user, terminal)
    case Resolve(sid, terminal) => ResolveStep(s, sid, terminal)
    case End(sid, reason) => EndStep(s, sid, reason)
    case SetActive(user, isActive) => s.(active := s.active[user := isActive])
    case MarkDormant(user) => s.(active := s.active[user := false], sessions := AllEnded(s.sessions, user))
    case Tick(seconds) => s.(clock := s.clock + seconds)
  }

  function Run(s: State, es: seq<Event>): State {
    if es == [] then s else Step(Run(s, es[..|es| - 1]), es[|es| - 1])
  }

  function Initial(p: Policy): State { State(p, 0, map[], map[], map[], map[], {}, []) }
}
