/**
 * UserService: signup, profile lookup and withdrawal, over the user store.
 *
 * `SignupTable` and `Withdrawn` specify the two writes; the methods of
 * `UserService` follow the source and are proved to realise them.
 */
module UserServices {
  import opened Wrappers
  import opened Exceptions
  import opened UserEntity
  import opened UserRepository
  import opened Collaborators

  datatype SignupRequestDto = SignupRequestDto(username: string, password: string)

  datatype ProfileResponseDto = ProfileResponseDto(
    nickname: Option<string>, introduce: Option<string>, pictureUrl: Option<string>)

  /** The row a fresh signup stores: NORMAL, encoded password, no session, empty profile. */
  function NewUserRow(id: int, dto: SignupRequestDto, enc: PasswordEncoder): (r: UserRow)
    ensures r.id == id && r.username == dto.username && r.password == enc.encode(dto.password)
    ensures r.userStatus == STATUS_NORMAL && r.refreshToken.None?
    ensures r.nickname.None? && r.introduce.None? && r.pictureUrl.None?
  {
    UserRow(id, dto.username, enc.encode(dto.password), STATUS_NORMAL, None, None, None, None)
  }

  /** signup, on the store: a taken username fails and changes nothing; otherwise one row is added. */
  function SignupTable(t: UserTable, dto: SignupRequestDto, enc: PasswordEncoder): (r: Result<UserTable, Failure>)
    requires TableValid(t)
    ensures ExistsByUsername(t, dto.username) ==> r == Failure(UserAlreadyExists())
    ensures !ExistsByUsername(t, dto.username) ==>
      && r.Ok? && TableValid(r.value)
      && t.nextId !in t.rows
      && r.value.rows == t.rows[t.nextId := NewUserRow(t.nextId, dto, enc)]
      && |r.value.rows| == |t.rows| + 1
  {
    if ExistsByUsername(t, dto.username) then Failure(UserAlreadyExists())
    else
      var ins := Inserted(t, NewUserRow(0, dto, enc));
      assert ins.Ok?;
      Ok(ins.value)
  }

  /** getProfile, on the store: the profile columns of the row, or UserNotFoundException. */
  function Profile(t: UserTable, userId: int): (r: Result<ProfileResponseDto, Failure>)
    requires TableValid(t)
    ensures r.Ok? <==> userId in t.rows
    ensures r.Ok? ==>
      var row := t.rows[userId];
      r.value == ProfileResponseDto(row.nickname, row.introduce, row.pictureUrl)
    ensures r.Failure? ==> r.error == UserNotFound()
  {
    match FindById(t, userId)
    case Failure(e) => Failure(e)
    case Ok(user) => Ok(ProfileResponseDto(user.nickname, user.introduce, user.pictureUrl))
  }

  /** deleteUser, on one row: DELETED, session cleared, every other column kept. */
  function Withdrawn(row: UserRow): (r: UserRow)
    ensures r.userStatus == STATUS_DELETED && r.refreshToken.None?
    ensures r.id == row.id && r.username == row.username && r.password == row.password
    ensures r.nickname == row.nickname && r.introduce == row.introduce && r.pictureUrl == row.pictureUrl
  {
    row.(userStatus := STATUS_DELETED, refreshToken := None)
  }

  /** Withdrawing twice is the same as withdrawing once. */
  lemma WithdrawnIdempotent(row: UserRow)
    ensures Withdrawn(Withdrawn(row)) == Withdrawn(row)
  {
  }

  class UserService {
    const userAdapter: UserAdapter
    const passwordEncoder: PasswordEncoder

    constructor (userAdapter: UserAdapter, passwordEncoder: PasswordEncoder)
      ensures this.userAdapter == userAdapter && this.passwordEncoder == passwordEncoder
    {
      this.userAdapter := userAdapter;
      this.passwordEncoder := passwordEncoder;
    }

    method Signup(dto: SignupRequestDto) returns (thrown: Option<Failure>)
      requires userAdapter.Valid()
      modifies userAdapter
      ensures userAdapter.Valid()
      ensures var r := SignupTable(old(userAdapter.table), dto, passwordEncoder);
        if r.Ok? then thrown.None? && userAdapter.table == r.value
        else thrown == Some(r.error) && userAdapter.table == old(userAdapter.table)
    {
      if ExistsByUsername(userAdapter.table, dto.username) {
        return Some(UserAlreadyExists());
      }
      var encodedPassword := passwordEncoder.encode(dto.password);
      var user := new User(dto.username, encodedPassword, STATUS_NORMAL);
      thrown := userAdapter.Save(user);
      assert user.RowAt(old(userAdapter.table).nextId) == NewUserRow(old(userAdapter.table).nextId, dto, passwordEncoder);
    }

    method GetProfile(userId: int) returns (r: Result<ProfileResponseDto, Failure>)
      requires userAdapter.Valid()
      ensures r.Ok? <==> userId in userAdapter.table.rows
      ensures r.Ok? ==>
        var row := userAdapter.table.rows[userId];
        r.value == ProfileResponseDto(row.nickname, row.introduce, row.pictureUrl)
      ensures r.Failure? ==> r.error == UserNotFound()
    {
      var found := FindById(userAdapter.table, userId);
      if found.Failure? {
        return Failure(found.error);
      }
      var user := found.value;
      r := Ok(ProfileResponseDto(user.nickname, user.introduce, user.pictureUrl));
    }

    /** deleteUser: mark the entity DELETED, clear its session, and save it. */
    method DeleteUser(user: User) returns (thrown: Option<Failure>)
      requires userAdapter.Valid() && Persisted(userAdapter.table, user)
      modifies user, userAdapter
      ensures userAdapter.Valid()
      ensures user.userStatus == STATUS_DELETED && user.refreshToken.None?
      ensures user.password == old(user.password)
      ensures user.nickname == old(user.nickname) && user.introduce == old(user.introduce)
      ensures user.pictureUrl == old(user.pictureUrl)
      ensures old(user.id).Some? ==>
        thrown.None? && user.id == old(user.id)
        && userAdapter.table == Updated(old(userAdapter.table), Withdrawn(old(user.Row())))
      ensures old(user.id).None? ==>
        var key := old(userAdapter.table).nextId;
        var ins := Inserted(old(userAdapter.table), Withdrawn(old(user.RowAt(key))));
        if ins.Ok? then thrown.None? && userAdapter.table == ins.value && user.id == Some(key)
        else thrown == Some(ins.error) && userAdapter.table == old(userAdapter.table) && user.id.None?
    {
      user.userStatus := STATUS_DELETED;
      user.refreshToken := None;
      thrown := userAdapter.Save(user);
    }
  }
}
