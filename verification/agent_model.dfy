/** The Agent record: its field normalisation, its compound unique key and the
    hash-on-save hook (src/models/Agent.ts). */
module AgentModel {
  import opened Text

  /** A stored agent. `password` holds the hash; `userId` is the owning admin. */
  datatype Agent = Agent(
    id: string, name: string, email: string, mobileNumber: string,
    password: string, userId: string)

  /** The agent fields a reply shows about an agent it lists beside tasks. */
  datatype AgentSummary = AgentSummary(id: string, name: string, email: string, mobileNumber: string)

  function Summary(a: Agent): (s: AgentSummary)
    ensures s.id == a.id && s.name == a.name && s.email == a.email && s.mobileNumber == a.mobileNumber
  {
    AgentSummary(a.id, a.name, a.email, a.mobileNumber)
  }

  const MinPasswordLength: nat := 6

  /** The `lowercase` and `trim` setters of `email`; Mongoose applies them to stored values
      and to query values alike. */
  function NormalizeEmail(email: string): (r: string)
    ensures IsTrimmed(r)
    ensures forall c :: c in r ==> !('A' <= c <= 'Z')
  {
    Trim(ToLower(email))
  }

  /** Normalising a normalised email changes nothing: what is stored is what a lookup of the
      stored value searches for. */
  lemma NormalizeEmailIdempotent(email: string)
    ensures NormalizeEmail(NormalizeEmail(email)) == NormalizeEmail(email)
  {
    var n := NormalizeEmail(email);
    ToLowerNoUpper(n);
    TrimIdempotent(ToLower(email));
  }

  /** Case does not matter: an email and its lower-cased form normalise alike. */
  lemma NormalizeEmailIgnoresCase(email: string)
    ensures NormalizeEmail(ToLower(email)) == NormalizeEmail(email)
  {
    ToLowerNoUpper(ToLower(email));
  }

  /** The compound unique index `{ email: 1, userId: 1 }`: no two agents share both. */
  predicate UniqueEmailPerWorkspace(agents: seq<Agent>) {
    forall i, j :: 0 <= i < j < |agents| ==>
      !(agents[i].email == agents[j].email && agents[i].userId == agents[j].userId)
  }

  /** An agent with this (normalised) email already exists in this workspace. */
  predicate EmailTaken(agents: seq<Agent>, email: string, userId: string) {
    exists i :: 0 <= i < |agents| && agents[i].email == email && agents[i].userId == userId
  }

  /** Adding an agent keeps the index satisfied exactly when its key is not taken; in
      particular an email already used under another admin does not block it. */
  lemma AddKeepsUnique(agents: seq<Agent>, a: Agent)
    requires UniqueEmailPerWorkspace(agents)
    ensures UniqueEmailPerWorkspace(agents + [a]) <==> !EmailTaken(agents, a.email, a.userId)
  {
    var s := agents + [a];
    if !EmailTaken(agents, a.email, a.userId) {
      forall i, j | 0 <= i < j < |s|
        ensures !(s[i].email == s[j].email && s[i].userId == s[j].userId)
      {
        if j == |agents| {
          assert s[i] == agents[i];
        }
      }
    } else {
      var i :| 0 <= i < |agents| && agents[i].email == a.email && agents[i].userId == a.userId;
      assert s[i] == agents[i] && s[|agents|] == a;
    }
  }

  /** An Agent document between `new Agent({...})` and `save()`. */
  class AgentDocument {
    var id: string
    var name: string
    var email: string
    var mobileNumber: string
    var password: string
    var userId: string
    /** `isModified('password')`. */
    var passwordModified: bool

    /** `new Agent({...})`: the setters trim `name` and `mobileNumber` and lower-case and trim
        `email`; on a new document every given path counts as modified. */
    constructor (id: string, name: string, email: string, mobileNumber: string, password: string, userId: string)
      ensures this.id == id && this.userId == userId && this.password == password
      ensures this.name == Trim(name) && this.mobileNumber == Trim(mobileNumber)
      ensures this.email == NormalizeEmail(email)
      ensures passwordModified
    {
      this.id := id;
      this.name := Trim(name);
      this.email := NormalizeEmail(email);
      this.mobileNumber := Trim(mobileNumber);
      this.password := password;
      this.userId := userId;
      this.passwordModified := true;
    }

    /** The schema validators that `save()` runs before the hooks: every field required
        (a string is missing when it is ""), and a password of at least six UTF-16 code units. */
    predicate PassesValidation()
      reads this
    {
      name != "" && email != "" && mobileNumber != "" && password != ""
      && JsLength(password) >= MinPasswordLength && userId != ""
    }

    /** The `pre('save')` hook: the password is replaced by its hash only when it was modified. */
    method PreSave(hash: string -> string)
      modifies this
      ensures password == if old(passwordModified) then hash(old(password)) else old(password)
      ensures id == old(id) && name == old(name) && email == old(email)
      ensures mobileNumber == old(mobileNumber) && userId == old(userId)
      ensures passwordModified == old(passwordModified)
    {
      if !passwordModified {
        return;
      }
      password := hash(password);
    }

    /** The record that `save()` stores. */
    function Record(): (a: Agent)
      reads this
      ensures a.id == id && a.email == email && a.userId == userId && a.password == password
    {
      Agent(id, name, email, mobileNumber, password, userId)
    }
  }
}
