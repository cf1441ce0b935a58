/** `GET` and `POST /api/agents` (src/app/api/agents/route.ts): listing the caller's agents
    without their passwords, and creating an agent in the caller's workspace. */
module AgentsRoute {
  import opened Wrappers
  import opened Text
  import opened AgentModel
  import opened Auth
  import opened Store

  /** An agent as a reply shows it: every stored field but the password. */
  datatype AgentView = AgentView(id: string, name: string, email: string, mobileNumber: string, userId: string)

  function View(a: Agent): (v: AgentView)
    ensures v.id == a.id && v.name == a.name && v.email == a.email
    ensures v.mobileNumber == a.mobileNumber && v.userId == a.userId
  {
    AgentView(a.id, a.name, a.email, a.mobileNumber, a.userId)
  }

  /** `.select('-password')` over a list of agents. */
  function Views(agents: seq<Agent>): (vs: seq<AgentView>)
    ensures |vs| == |agents| && forall i :: 0 <= i < |agents| ==> vs[i] == View(agents[i])
  {
    seq(|agents|, i requires 0 <= i < |agents| => View(agents[i]))
  }

  /** `GET`: 401 without a valid token; otherwise the workspace's agents, in store order,
      without passwords. */
  method Get(store: Store, authHeader: Option<string>, decode: string -> Option<SignedToken>, nowMs: nat)
    returns (reply: Reply<seq<AgentView>>)
    ensures var user := AuthenticateRequest(authHeader, decode, nowMs / 1000);
      user.None? <==> reply == Error(401, "Unauthorized")
    ensures var user := AuthenticateRequest(authHeader, decode, nowMs / 1000);
      user.Some? ==>
        && reply.Ok? && reply.status == 200
        && |reply.body| == |AgentsOf(store.agents, user.value.userId)|
        && (forall i :: 0 <= i < |reply.body| ==> reply.body[i] == View(AgentsOf(store.agents, user.value.userId)[i]))
        && forall v :: v in reply.body <==>
             exists a :: a in store.agents && a.userId == user.value.userId && v == View(a)
  {
    var user := AuthenticateRequest(authHeader, decode, nowMs / 1000);
    if user.None? {
      return Error(401, "Unauthorized");
    }
    var agents := AgentsOf(store.agents, user.value.userId);
    var views := Views(agents);
    forall v | v in views ensures exists a :: a in store.agents && a.userId == user.value.userId && v == View(a) {
      var i :| 0 <= i < |views| && views[i] == v;
      assert agents[i] in agents;
    }
    forall v | exists a :: a in store.agents && a.userId == user.value.userId && v == View(a) ensures v in views {
      var a :| a in store.agents && a.userId == user.value.userId && v == View(a);
      var i :| 0 <= i < |agents| && agents[i] == a;
      assert views[i] == v;
    }
    return Ok(200, views);
  }

  const AllFieldsRequired: string := "All fields are required"
  const PasswordTooShort: string := "Password must be at least 6 characters long"
  const AgentExists: string := "Agent already exists with this email in your workspace"
  const InternalError: string := "Internal server error"

  /** Every field of the body is truthy. */
  predicate AllGiven(name: Option<string>, email: Option<string>, mobileNumber: Option<string>, password: Option<string>) {
    Truthy(name) && Truthy(email) && Truthy(mobileNumber) && Truthy(password)
  }

  /** The document passes the schema's `required` validators once its setters have run: no field
      is empty after trimming (and lower-casing the email), and the owner is present. */
  predicate Savable(name: string, email: string, mobileNumber: string, userId: string) {
    Trim(name) != "" && NormalizeEmail(email) != "" && Trim(mobileNumber) != "" && userId != ""
  }

  /** `POST`: each check in turn; on success the new agent, with its password hashed, is the
      last agent of the store and the reply shows it without the password. The duplicate check
      compares normalised emails within the caller's workspace only. */
  method Post(store: Store, authHeader: Option<string>, decode: string -> Option<SignedToken>, nowMs: nat,
              name: Option<string>, email: Option<string>, mobileNumber: Option<string>, password: Option<string>,
              hash: string -> string) returns (reply: Reply<AgentView>)
    requires store.Valid()
    modifies store
    ensures store.Valid() && store.tasks == old(store.tasks) && store.admins == old(store.admins)
    ensures reply.Error? ==> store.agents == old(store.agents)
    ensures var user := AuthenticateRequest(authHeader, decode, nowMs / 1000);
      user.None? ==> reply == Error(401, "Unauthorized")
    ensures var user := AuthenticateRequest(authHeader, decode, nowMs / 1000);
      user.Some? && !AllGiven(name, email, mobileNumber, password) ==> reply == Error(400, AllFieldsRequired)
    ensures var user := AuthenticateRequest(authHeader, decode, nowMs / 1000);
      (user.Some? && AllGiven(name, email, mobileNumber, password) && JsLength(password.value) < MinPasswordLength)
        ==> reply == Error(400, PasswordTooShort)
    ensures var user := AuthenticateRequest(authHeader, decode, nowMs / 1000);
      (user.Some? && AllGiven(name, email, mobileNumber, password) && JsLength(password.value) >= MinPasswordLength
       && EmailTaken(old(store.agents), NormalizeEmail(email.value), user.value.userId))
        ==> reply == Error(409, AgentExists)
    ensures var user := AuthenticateRequest(authHeader, decode, nowMs / 1000);
      (user.Some? && AllGiven(name, email, mobileNumber, password) && JsLength(password.value) >= MinPasswordLength
       && !EmailTaken(old(store.agents), NormalizeEmail(email.value), user.value.userId)
       && !Savable(name.value, email.value, mobileNumber.value, user.value.userId))
        ==> reply == Error(500, InternalError)
    ensures var user := AuthenticateRequest(authHeader, decode, nowMs / 1000);
      reply.Ok? <==>
        (&& user.Some? && AllGiven(name, email, mobileNumber, password)
         && JsLength(password.value) >= MinPasswordLength
         && !EmailTaken(old(store.agents), NormalizeEmail(email.value), user.value.userId)
         && Savable(name.value, email.value, mobileNumber.value, user.value.userId))
    ensures var user := AuthenticateRequest(authHeader, decode, nowMs / 1000);
      reply.Ok? ==>
        var a := Agent(reply.body.id, Trim(name.value), NormalizeEmail(email.value), Trim(mobileNumber.value),
                       hash(password.value), user.value.userId);
        && reply.status == 201 && reply.body == View(a)
        && !HasAgent(old(store.agents), a.id)
        && store.agents == old(store.agents) + [a]
  {
    var user := AuthenticateRequest(authHeader, decode, nowMs / 1000);
    if user.None? {
      return Error(401, "Unauthorized");
    }
    if !AllGiven(name, email, mobileNumber, password) {
      return Error(400, AllFieldsRequired);
    }
    if JsLength(password.value) < MinPasswordLength {
      return Error(400, PasswordTooShort);
    }
    var userId := user.value.userId;
    if EmailTaken(store.agents, NormalizeEmail(email.value), userId) {
      return Error(409, AgentExists);
    }
    var id := store.NewId();
    var doc := new AgentDocument(id, name.value, email.value, mobileNumber.value, password.value, userId);
    if !doc.PassesValidation() {
      return Error(500, InternalError);
    }
    doc.PreSave(hash);
    var a := doc.Record();
    var ok := store.InsertAgent(a);
    assert ok;
    return Ok(201, View(a));
  }

  /** Once an agent is created, creating it again in the same workspace, with its email in any
      case and with any surrounding whitespace, is refused as a duplicate. */
  lemma CreatedAgentIsDuplicate(agents: seq<Agent>, a: Agent, email: string)
    requires NormalizeEmail(email) == a.email
    ensures EmailTaken(agents + [a], NormalizeEmail(email), a.userId)
  {
    assert (agents + [a])[|agents|] == a;
  }

  /** An email used in another workspace does not count as taken. */
  lemma OtherWorkspaceNotTaken(agents: seq<Agent>, email: string, userId: string)
    requires forall a :: a in agents ==> a.userId != userId
    ensures !EmailTaken(agents, email, userId)
  {
    forall i | 0 <= i < |agents| ensures agents[i].userId != userId {
      assert agents[i] in agents;
    }
  }
}
