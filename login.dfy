// The login form (src/components/LoginForm.tsx): a non-blank name is sent to
// the server's find-or-create endpoint; when the server is unreachable the
// user is found by name in the local database or created there.
module Login {
  import opened Types
  import opened Seqs
  import opened Text
  import opened LocalDb
  import Api
  import opened Env

  const NameRequired: string := "Name is required"
  const LoginFailed: string := "Failed to login. Please try again."

  /** What the offline path leaves behind for the trimmed name `n`, from the
      users, user, minted ids and clock readings before (`0`) and after (`1`):
      no database, the login error; a stored user with that name, that user
      and no write (in these two cases no id is minted and the clock is not
      read); otherwise one minted `user_` id and one clock reading make a new
      user, inserted unless the id is taken (then the login error). */
  ghost predicate OfflineLogin(n: string, users0: map<string, User>, users1: map<string, User>,
                               user0: Option<User>, user1: Option<User>, error: Option<string>, connected: bool,
                               minted0: seq<string>, minted1: seq<string>, readings0: seq<int>, readings1: seq<int>)
  {
    && (!connected ==> error == Some(LoginFailed) && user1 == user0 && users1 == users0
                       && minted1 == minted0 && readings1 == readings0)
    && (connected && (exists k :: k in users0 && users0[k].name == n) ==>
          && user1.Some? && user1.value.id in users0 && users0[user1.value.id] == user1.value && user1.value.name == n
          && error == None && users1 == users0 && minted1 == minted0 && readings1 == readings0)
    && (connected && (forall k :: k in users0 ==> users0[k].name != n) ==>
          && |minted1| == |minted0| + 1 && |readings1| == |readings0| + 1
          && var newUser := User(Last(minted1), n, Last(readings1));
          && HasPrefix(newUser.id, "user_")
          && if newUser.id in users0 then
               error == Some(LoginFailed) && user1 == user0 && users1 == users0
             else
               users1 == users0[newUser.id := newUser] && user1 == Some(newUser) && error == None)
  }

  class LoginForm {
    var name: string
    var isLoading: bool
    var error: Option<string>
    /** The user handed to the authentication store. */
    var user: Option<User>
    const api: Api.ApiService
    const db: Database
    const clock: Clock
    const ids: IdSource

    constructor (api: Api.ApiService, db: Database, clock: Clock, ids: IdSource)
      ensures name == "" && !isLoading && error == None && user == None
      ensures this.api == api && this.db == db && this.clock == clock && this.ids == ids
    {
      this.api, this.db, this.clock, this.ids := api, db, clock, ids;
      name, isLoading, error, user := "", false, None, None;
    }

    method HandleSubmit()
      requires db.Valid()
      modifies this`isLoading, this`error, this`user, api, db`users, db`connected, clock, ids
      ensures db.Valid()
      ensures Trim(name) == "" ==>
        && error == Some(NameRequired) && user == old(user) && isLoading == old(isLoading)
        && api.log == old(api.log) && db.users == old(db.users) && db.connected == old(db.connected)
        && clock.readings == old(clock.readings) && ids.minted == old(ids.minted)
      ensures Trim(name) != "" ==> !isLoading && Api.Called(old(api.log), api.log, Api.Request.CreateOrGetUser(Trim(name)))
      ensures Trim(name) != "" && Last(api.log).reply.GotUser? ==>
        user == Some(Last(api.log).reply.user) && error == None
        && db.users == old(db.users) && db.connected == old(db.connected)
      ensures Trim(name) != "" && Last(api.log).reply.Failed? ==>
        OfflineLogin(Trim(name), old(db.users), db.users, old(user), user, error, db.connected,
                     old(ids.minted), ids.minted, old(clock.readings), clock.readings)
    {
      var trimmed := Trim(name);
      if trimmed == "" {
        error := Some(NameRequired);
        return;
      }
      error := None;
      SubmitName(trimmed);
      assert name == old(name);
    }

    /** A non-blank trimmed name: the server's find-or-create first, the
        offline path when it fails, and the spinner off at the end. */
    method SubmitName(n: string)
      requires db.Valid() && error == None
      modifies this`isLoading, this`error, this`user, api, db`users, db`connected, clock, ids
      ensures db.Valid() && !isLoading
      ensures Api.Called(old(api.log), api.log, Api.Request.CreateOrGetUser(n))
      ensures Last(api.log).reply.GotUser? ==>
        user == Some(Last(api.log).reply.user) && error == None
        && db.users == old(db.users) && db.connected == old(db.connected)
      ensures Last(api.log).reply.Failed? ==>
        OfflineLogin(n, old(db.users), db.users, old(user), user, error, db.connected,
                     old(ids.minted), ids.minted, old(clock.readings), clock.readings)
    {
      isLoading := true;
      var remote := api.CreateOrGetUser(n);
      if remote.Some? {
        user := remote;
      } else {
        LocalLogin(n);
      }
      isLoading := false;
    }

    /** The offline path: the user with that name in the local database, or a
        new `user_` record inserted there. */
    method LocalLogin(n: string)
      requires db.Valid() && error == None
      modifies this`error, this`user, db`users, db`connected, clock, ids
      ensures db.Valid()
      ensures OfflineLogin(n, old(db.users), db.users, old(user), user, error, db.connected,
                           old(ids.minted), ids.minted, old(clock.readings), clock.readings)
    {
      var st := db.Open();
      if st != Ready {
        error := Some(LoginFailed);
        return;
      }
      var existing := db.FindUserByName(n);
      if existing.Some? {
        user := existing;
      } else {
        var id := ids.Mint("user_");
        var now := clock.Now();
        var newUser := User(id, n, now);
        var ok := db.InsertUser(newUser);
        if ok {
          user := Some(newUser);
        } else {
          error := Some(LoginFailed);
        }
      }
    }
  }
}
