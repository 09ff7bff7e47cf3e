/**
 * The User entity: a mutable JPA entity with a generated id, an immutable unique
 * username, non-null password and status, and nullable refresh token and profile
 * fields.
 */
module UserEntity {
  import opened Wrappers

  datatype UserStatus = STATUS_NORMAL | STATUS_DELETED

  /** The persisted state of one user: a row of the `users` table. */
  datatype UserRow = UserRow(
    id: int,
    username: string,
    password: string,
    userStatus: UserStatus,
    refreshToken: Option<string>,
    nickname: Option<string>,
    introduce: Option<string>,
    pictureUrl: Option<string>)

  /** The row with its refresh token replaced and every other column kept. */
  function WithRefreshToken(row: UserRow, token: Option<string>): (r: UserRow)
  {
    row.(refreshToken := token)
  }

  class User {
    /** Assigned by the store on the first save (@GeneratedValue); there is no setter. */
    var id: Option<int>
    /** No setter: fixed from construction on. */
    const username: string
    // The fields below have setters; callers assign them directly.
    var password: string
    var userStatus: UserStatus
    var refreshToken: Option<string>
    var nickname: Option<string>
    var introduce: Option<string>
    var pictureUrl: Option<string>

    /** The public constructor: username, password and status; everything else starts null. */
    constructor (username: string, password: string, userStatus: UserStatus)
      ensures this.username == username && this.password == password && this.userStatus == userStatus
      ensures id.None? && refreshToken.None?
      ensures nickname.None? && introduce.None? && pictureUrl.None?
    {
      this.id := None;
      this.username := username;
      this.password := password;
      this.userStatus := userStatus;
      this.refreshToken := None;
      this.nickname := None;
      this.introduce := None;
      this.pictureUrl := None;
    }

    /**
     * How the persistence layer materialises a stored row: the no-argument
     * constructor followed by filling every column in.
     */
    constructor Load(row: UserRow)
      ensures id == Some(row.id) && Row() == row
    {
      this.id := Some(row.id);
      this.username := row.username;
      this.password := row.password;
      this.userStatus := row.userStatus;
      this.refreshToken := row.refreshToken;
      this.nickname := row.nickname;
      this.introduce := row.introduce;
      this.pictureUrl := row.pictureUrl;
    }

    /** The columns this object would be saved as, under the given id. */
    function RowAt(key: int): (r: UserRow)
      reads this
      ensures r.id == key && r.username == username && r.refreshToken == refreshToken
    {
      UserRow(key, username, password, userStatus, refreshToken, nickname, introduce, pictureUrl)
    }

    /** The columns of an object that already has an id. */
    function Row(): (r: UserRow)
      reads this
      requires id.Some?
      ensures r == RowAt(id.value)
    {
      RowAt(id.value)
    }
  }
}
