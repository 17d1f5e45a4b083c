/**
  The in-memory store of gateway-go/internal/store/memory.go: users under two indices that share
  their records, and refresh tokens by hash.  Records are updated in place; `Users`, `ById` and
  `Tokens` give the contents as values.
 */
module MemoryStores {
  import opened Identifiers
  import opened Wrappers

  /** A refresh token as the store returns it; times are nanoseconds. */
  datatype Token = Token(userId: Id, familyId: Id, revoked: bool, usedAt: Option<int>, expiresAt: int)

  datatype LastLogin = LastLogin(lat: real, lon: real, at: int)

  datatype User = User(id: Id, email: Id, passwordHash: string, lastLogin: Option<LastLogin>)

  // ---------------------------------------------------------------- the operations on values

  function Saved(ts: map<Id, Token>, hash: Id, rt: Token): map<Id, Token> {
    ts[hash := rt]
  }

  function MarkedUsed(ts: map<Id, Token>, hash: Id, at: int): map<Id, Token> {
    if hash in ts then ts[hash := ts[hash].(usedAt := Some(at))] else ts
  }

  function FamilyRevoked(ts: map<Id, Token>, familyId: Id): map<Id, Token> {
    map h | h in ts :: if ts[h].familyId == familyId then ts[h].(revoked := true) else ts[h]
  }

  /** Every index entry for the user shows the new login, whatever its key. */
  function WithLastLogin(us: map<Id, User>, id: Id, l: LastLogin): map<Id, User> {
    map k | k in us :: if us[k].id == id then us[k].(lastLogin := Some(l)) else us[k]
  }

  lemma SameMap<K, V>(a: map<K, V>, b: map<K, V>)
    requires a.Keys == b.Keys && forall k | k in a :: a[k] == b[k]
    ensures a == b
  {
  }

  // ---------------------------------------------------------------- the store

  class TokenRecord {
    const userId: Id
    const familyId: Id
    const expiresAt: int
    var revoked: bool
    var usedAt: Option<int>

    function View(): Token
      reads this
    {
      Token(userId, familyId, revoked, usedAt, expiresAt)
    }

    constructor (rt: Token)
      ensures View() == rt
    {
      userId, familyId, expiresAt, revoked, usedAt := rt.userId, rt.familyId, rt.expiresAt, rt.revoked, rt.usedAt;
    }
  }

  class UserRecord {
    const id: Id
    const email: Id
    const passwordHash: string
    var lastLogin: Option<LastLogin>

    function View(): User
      reads this
    {
      User(id, email, passwordHash, lastLogin)
    }

    constructor (id: Id, email: Id, passwordHash: string)
      ensures View() == User(id, email, passwordHash, None)
    {
      this.id, this.email, this.passwordHash, lastLogin := id, email, passwordHash, None;
    }
  }

  class MemoryStore {
    var users: map<Id, UserRecord>
    var byID: map<Id, UserRecord>
    var tokens: map<Id, TokenRecord>

    /** Both user indices lead to one record per user, and no two hashes share a token record. */
    ghost predicate Valid()
      reads this
    {
      && (forall i | i in byID :: byID[i].id == i)
      && (forall e | e in users :: users[e].email == e && users[e].id in byID && byID[users[e].id] == users[e])
      && (forall h, k | h in tokens && k in tokens && h != k :: tokens[h] != tokens[k])
    }

    ghost function Tokens(): map<Id, Token>
      reads this, tokens.Values
    {
      map h | h in tokens :: tokens[h].View()
    }

    ghost function Users(): map<Id, User>
      reads this, users.Values
    {
      map e | e in users :: users[e].View()
    }

    ghost function ById(): map<Id, User>
      reads this, byID.Values
    {
      map i | i in byID :: byID[i].View()
    }

    constructor ()
      ensures Valid() && users == map[] && byID == map[] && tokens == map[]
    {
      users, byID, tokens := map[], map[], map[];
    }

    /** `id` is a new UUID. */
    method CreateUser(id: Id, email: Id, passwordHash: string) returns (u: User)
      requires Valid() && id !in byID
      modifies this`users, this`byID
      ensures Valid() && u == User(id, email, passwordHash, None)
      ensures Users() == old(Users())[email := u] && ById() == old(ById())[id := u]
      ensures byID.Keys == old(byID.Keys) + {id}
    {
      var record := new UserRecord(id, email, passwordHash);
      users, byID := users[email := record], byID[id := record];
      u := record.View();
    }

    method GetUserByEmail(email: Id) returns (r: Result<User>)
      ensures r == if email in Users() then Success(Users()[email]) else Failure
    {
      r := if email in users then Success(users[email].View()) else Failure;
    }

    method GetUserByID(id: Id) returns (r: Result<User>)
      ensures r == if id in ById() then Success(ById()[id]) else Failure
    {
      r := if id in byID then Success(byID[id].View()) else Failure;
    }

    /** One write through the id index; the email index shows it too. */
    method UpdateLastLogin(id: Id, l: LastLogin) returns (ok: bool)
      requires Valid()
      modifies if id in byID then {byID[id]} else {}
      ensures Valid() && (ok <==> id in byID)
      ensures Users() == WithLastLogin(old(Users()), id, l)
      ensures ById() == WithLastLogin(old(ById()), id, l)
    {
      ok := id in byID;
      if ok {
        byID[id].lastLogin := Some(l);
      }
      ghost var was, us := old(ById()), old(Users());
      forall i | i in byID ensures ById()[i] == WithLastLogin(was, id, l)[i] {
        assert !ok || i == id || byID[i] != byID[id];
        assert was[i].id == i;
      }
      SameMap(ById(), WithLastLogin(was, id, l));
      forall e | e in users ensures Users()[e] == WithLastLogin(us, id, l)[e] {
        assert us[e].id == users[e].id && byID[users[e].id] == users[e];
      }
      SameMap(Users(), WithLastLogin(us, id, l));
    }

    method Save(hash: Id, rt: Token)
      requires Valid()
      modifies this`tokens
      ensures Valid() && Tokens() == Saved(old(Tokens()), hash, rt)
      ensures hash in tokens && fresh(tokens[hash]) && tokens == old(tokens)[hash := tokens[hash]]
    {
      var record := new TokenRecord(rt);
      tokens := tokens[hash := record];
    }

    method Get(hash: Id) returns (r: Result<Token>)
      ensures r == if hash in Tokens() then Success(Tokens()[hash]) else Failure
    {
      r := if hash in tokens then Success(tokens[hash].View()) else Failure;
    }

    method MarkUsed(hash: Id, at: int) returns (ok: bool)
      requires Valid()
      modifies if hash in tokens then {tokens[hash]} else {}
      ensures Valid() && (ok <==> hash in tokens)
      ensures Tokens() == MarkedUsed(old(Tokens()), hash, at)
    {
      ok := hash in tokens;
      if ok {
        tokens[hash].usedAt := Some(at);
      }
      ghost var was := old(Tokens());
      forall h | h in tokens ensures Tokens()[h] == MarkedUsed(was, hash, at)[h] {
        assert !ok || h == hash || tokens[h] != tokens[hash];
      }
      SameMap(Tokens(), MarkedUsed(was, hash, at));
    }

    /** Visits every token record, in any order. */
    method RevokeFamily(familyId: Id)
      requires Valid()
      modifies tokens.Values
      ensures Valid() && Tokens() == FamilyRevoked(old(Tokens()), familyId)
    {
      var todo := tokens.Values;
      while todo != {}
        modifies tokens.Values
        invariant todo <= tokens.Values
        invariant forall h | h in tokens ::
                    tokens[h].View() ==
                    if tokens[h] !in todo && tokens[h].familyId == familyId
                    then old(tokens[h].View()).(revoked := true)
                    else old(tokens[h].View())
        decreases |todo|
      {
        var rt :| rt in todo;
        if rt.familyId == familyId {
          rt.revoked := true;
        }
        todo := todo - {rt};
      }
      ghost var was := old(Tokens());
      forall h | h in tokens ensures Tokens()[h] == FamilyRevoked(was, familyId)[h] {
        assert tokens[h].View() == FamilyRevoked(was, familyId)[h];
      }
      SameMap(Tokens(), FamilyRevoked(was, familyId));
    }
  }
}
