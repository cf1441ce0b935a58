/** `POST /api/auth/agent-login` (src/app/api/auth/agent-login/route.ts): an agent signs in
    with email and password and receives a token naming the agent, the owning admin and the
    role "agent". The password check (`bcrypt.compare`) is the `compare` parameter. */
module AgentLoginRoute {
  import opened Wrappers
  import opened AgentModel
  import opened Auth
  import opened Store

  /** The `agent` object of the reply: no password, role "agent". */
  datatype LoginAgent = LoginAgent(id: string, name: string, email: string, mobileNumber: string,
                                   adminEmail: string, role: string)

  datatype LoginBody = LoginBody(token: SignedToken, agent: LoginAgent)

  const CredentialsRequired: string := "Email and password are required"
  const InvalidCredentials: string := "Invalid credentials"
  const InternalError: string := "Internal server error"

  /** The payload signed for agent `a` of the admin `admin`. */
  function AgentClaims(a: Agent, admin: Admin): (c: Claims)
    ensures c.agentId == Some(a.id) && c.userId == admin.id && c.email == a.email
    ensures c.name == Some(a.name) && c.role == Some("agent") && c.adminEmail == Some(admin.email)
  {
    Claims(admin.id, Some(a.id), a.email, Some(a.name), Some("agent"), Some(admin.email))
  }

  /** `POST`, with the store's agents and admins, the password check and the clock (seconds). */
  function Login(agents: seq<Agent>, admins: seq<Admin>, email: Option<string>, password: Option<string>,
                 compare: (string, string) -> bool, now: int): (r: Reply<LoginBody>)
    ensures !Truthy(email) || !Truthy(password) ==> r == Error(400, CredentialsRequired)
    ensures Truthy(email) && Truthy(password) && FindAgentByEmail(agents, email.value).None?
      ==> r == Error(401, InvalidCredentials)
    ensures Truthy(email) && Truthy(password) && FindAgentByEmail(agents, email.value).Some?
      && !compare(password.value, FindAgentByEmail(agents, email.value).value.password)
      ==> r == Error(401, InvalidCredentials)
    ensures Truthy(email) && Truthy(password) && FindAgentByEmail(agents, email.value).Some?
      && compare(password.value, FindAgentByEmail(agents, email.value).value.password)
      ==> (r.Ok? <==> FindAdmin(admins, FindAgentByEmail(agents, email.value).value.userId).Some?)
    ensures Truthy(email) && Truthy(password) && FindAgentByEmail(agents, email.value).Some?
      && compare(password.value, FindAgentByEmail(agents, email.value).value.password)
      && FindAdmin(admins, FindAgentByEmail(agents, email.value).value.userId).None?
      ==> r == Error(500, InternalError)
    ensures r.Ok? ==>
      && Truthy(email) && Truthy(password)
      && FindAgentByEmail(agents, email.value).Some?
      && var a := FindAgentByEmail(agents, email.value).value;
         && compare(password.value, a.password)
         && FindAdmin(admins, a.userId).Some?
         && var admin := FindAdmin(admins, a.userId).value;
            r == Ok(200, LoginBody(SignToken(AgentClaims(a, admin), now),
                                   LoginAgent(a.id, a.name, a.email, a.mobileNumber, admin.email, "agent")))
    ensures r.Error? ==> r.status in {400, 401, 500}
  {
    if !Truthy(email) || !Truthy(password) then Error(400, CredentialsRequired)
    else
      match FindAgentByEmail(agents, email.value)
      case None => Error(401, InvalidCredentials)
      case Some(a) =>
        if !compare(password.value, a.password) then Error(401, InvalidCredentials)
        else
          match FindAdmin(admins, a.userId)
          case None => Error(500, InternalError)
          case Some(admin) =>
            Ok(200, LoginBody(SignToken(AgentClaims(a, admin), now),
                              LoginAgent(a.id, a.name, a.email, a.mobileNumber, admin.email, "agent")))
  }

  /** An unknown email and a wrong password for a known one get the very same reply. */
  lemma UnknownEmailLikeWrongPassword(agents: seq<Agent>, admins: seq<Admin>, email: string, password: string,
                                      otherEmail: string, compare: (string, string) -> bool, now: int)
    requires email != "" && password != "" && otherEmail != ""
    requires FindAgentByEmail(agents, email).None?
    requires FindAgentByEmail(agents, otherEmail).Some?
    requires !compare(password, FindAgentByEmail(agents, otherEmail).value.password)
    ensures Login(agents, admins, Some(email), Some(password), compare, now)
         == Login(agents, admins, Some(otherEmail), Some(password), compare, now)
  {
  }

  /** Agents under different admins may share an email; the login checks the password of the
      first of them only, so a password that fits a later one is still refused. */
  lemma SharedEmailFirstAgentDecides(agents: seq<Agent>, admins: seq<Admin>, email: string, password: string,
                                     compare: (string, string) -> bool, now: int, i: nat, j: nat)
    requires email != "" && password != "" && i < j < |agents|
    requires agents[i].email == NormalizeEmail(email) && agents[j].email == NormalizeEmail(email)
    requires forall k :: 0 <= k < i ==> agents[k].email != NormalizeEmail(email)
    requires agents[i].userId != agents[j].userId
    requires !compare(password, agents[i].password) && compare(password, agents[j].password)
    ensures Login(agents, admins, Some(email), Some(password), compare, now) == Error(401, InvalidCredentials)
  {
    FindAgentByEmailFirst(agents, email, i);
  }

  /** The token issued at login, presented as "Bearer <token>", authenticates for 24 hours as
      an agent of the owning admin's workspace: role "agent", the agent's id, the admin's id. */
  lemma IssuedTokenAuthenticates(agents: seq<Agent>, admins: seq<Admin>, email: string, password: string,
                                 compare: (string, string) -> bool, issuedAt: int, token: string,
                                 decode: string -> Option<SignedToken>, now: int)
    requires Login(agents, admins, Some(email), Some(password), compare, issuedAt).Ok?
    requires token != "" && decode(token) == Some(Login(agents, admins, Some(email), Some(password), compare, issuedAt).body.token)
    requires issuedAt <= now < issuedAt + TokenLifetime
    ensures var user := AuthenticateRequest(Some("Bearer " + token), decode, now);
      && user.Some? && user.value.role == Some("agent")
      && exists a :: a in agents && user.value.agentId == Some(a.id) && user.value.userId == a.userId
                     && a.email == NormalizeEmail(email)
  {
    var a := FindAgentByEmail(agents, email).value;
    var admin := FindAdmin(admins, a.userId).value;
    SignedTokenAuthenticates(AgentClaims(a, admin), issuedAt, token, decode, now);
  }
}
