/**
 * `CenterUserServiceImpl`: the user centre's read of a user's profile, over the users
 * table the users mapper stands for.
 */
module CenterUserService {
  import opened Wrappers
  import opened Pojo

  class CenterUserServiceImpl {
    /** users, keyed by user id. */
    var users: map<string, Users>

    /** The primary key: each row carries its key. */
    ghost predicate Valid()
      reads this
    {
      forall id :: id in users ==> users[id].id == id
    }

    /** A service over the given users table. */
    constructor (users: map<string, Users>)
      ensures this.users == users
    {
      this.users := users;
    }

    /**
     * `queryUserInfo`: the user's row with the password cleared, so that the hash never
     * leaves the service; every other column is the stored one, and the table is not
     * written. The source dereferences the row, so the user must exist.
     */
    method QueryUserInfo(userId: string) returns (user: Users)
      requires userId in users
      ensures user.password == None
      ensures user.(password := users[userId].password) == users[userId]
      ensures Valid() ==> user.id == userId
    {
      var row := users[userId];
      user := row.(password := None);
    }
  }
}
