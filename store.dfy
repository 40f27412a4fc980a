/** The relational store the service reads and writes, one field per table.
    Tables read through `.one()`/`.first()`/`.all()` keep their row order (a
    sequence); tables only addressed by primary key are maps. Operations
    elsewhere take the database and name in `modifies` the tables they change. */
module Store {
  import opened Base
  import opened Entities

  class Database {
    var users: seq<User>
    var clients: seq<Client>
    var groups: seq<ResourceGroup>
    var resources: seq<Resource>
    var sessions: map<Uuid, Session>
    var refreshTokens: map<Uuid, RefreshToken>

    constructor (users: seq<User>, clients: seq<Client>, groups: seq<ResourceGroup>, resources: seq<Resource>,
                 sessions: map<Uuid, Session>, refreshTokens: map<Uuid, RefreshToken>)
      ensures this.users == users && this.clients == clients && this.groups == groups
      ensures this.resources == resources && this.sessions == sessions && this.refreshTokens == refreshTokens
    {
      this.users := users;
      this.clients := clients;
      this.groups := groups;
      this.resources := resources;
      this.sessions := sessions;
      this.refreshTokens := refreshTokens;
    }
  }

  /** `user::Entity::find_by_id(id).one()` */
  function UserById(users: seq<User>, id: Uuid): Option<User> {
    FirstWhere(users, (u: User) => u.id == id)
  }

  /** `client::Entity::find_by_id(id).one()` */
  function ClientById(clients: seq<Client>, id: Uuid): Option<Client> {
    FirstWhere(clients, (c: Client) => c.id == id)
  }

  /** The entity helper `find_active_by_id`, read as its name says: the row
      with that id whose `locked_at` is null. */
  function ActiveUserById(users: seq<User>, id: Uuid): Option<User> {
    FirstWhere(users, (u: User) => u.id == id && Unlocked(u.lockedAt))
  }

  function ActiveClientById(clients: seq<Client>, id: Uuid): Option<Client> {
    FirstWhere(clients, (c: Client) => c.id == id && Unlocked(c.lockedAt))
  }

  function ActiveRefreshTokenById(tokens: map<Uuid, RefreshToken>, id: Uuid): Option<RefreshToken> {
    if id in tokens && Unlocked(tokens[id].lockedAt) then Some(tokens[id]) else None
  }
}
