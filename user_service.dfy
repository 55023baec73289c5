/**
  `UserService.list`: the users of the requested page, projected by the
  caller's role. An ADMIN sees the whole profile, anyone else only the id
  and nickname.
*/
module UserService {
  import opened UserModel
  import opened UserRouter

  /** One entry of the response's `data`. */
  datatype UserView =
    | FullProfile(id: int, name: string, surname: string, nickName: string, age: int, email: string, role: Role)
    | PublicProfile(id: int, nickName: string)

  datatype ListResponse = ListResponse(data: seq<UserView>, message: string)

  /** The user a full profile describes. */
  function ProfileOwner(v: UserView): User
    requires v.FullProfile?
  {
    User(v.id, v.name, v.surname, v.nickName, v.email, v.age, v.role)
  }

  /** The projection of one user for a caller with the given role. */
  function Project(u: User, callerRole: Role): (v: UserView)
    ensures v.FullProfile? <==> callerRole == ADMIN
    ensures v.id == u.id && v.nickName == u.nickName
    ensures v.FullProfile? ==> ProfileOwner(v) == u
  {
    if callerRole == ADMIN then FullProfile(u.id, u.name, u.surname, u.nickName, u.age, u.email, u.role)
    else PublicProfile(u.id, u.nickName)
  }

  /** `list(ctx)`: `usersFor` stands for the user repository's `list`, which
      receives the validated pagination as it is. */
  function List(dto: ListUserDto, usersFor: Pagination -> seq<User>): (r: ListResponse)
    ensures r.message == "List of users"
    ensures |r.data| == |usersFor(dto.query)|
    ensures forall i :: 0 <= i < |r.data| ==> r.data[i] == Project(usersFor(dto.query)[i], dto.user.role)
  {
    var users := usersFor(dto.query);
    ListResponse(seq(|users|, i requires 0 <= i < |users| => Project(users[i], dto.user.role)), "List of users")
  }

  /** Whatever the role, the same users come back in the same order, with the
      same ids and nicknames. */
  lemma ListAgreesAcrossRoles(query: Pagination, usersFor: Pagination -> seq<User>)
    ensures var admin := List(ListUserDto(query, RoleClaim(ADMIN)), usersFor).data;
            var peer := List(ListUserDto(query, RoleClaim(USER)), usersFor).data;
            && |admin| == |peer|
            && forall i :: 0 <= i < |admin| ==> admin[i].id == peer[i].id && admin[i].nickName == peer[i].nickName
  {
  }

  /** An ADMIN's list holds every field of every user: the page can be read back from it. */
  lemma AdminListIsLossless(query: Pagination, usersFor: Pagination -> seq<User>)
    ensures var data := List(ListUserDto(query, RoleClaim(ADMIN)), usersFor).data;
            && (forall i :: 0 <= i < |data| ==> data[i].FullProfile? && ProfileOwner(data[i]) == usersFor(query)[i])
  {
  }

  /** Anyone else sees no name, surname, age, email or role. */
  lemma PeerListIsMinimal(query: Pagination, usersFor: Pagination -> seq<User>)
    ensures var data := List(ListUserDto(query, RoleClaim(USER)), usersFor).data;
            forall i :: 0 <= i < |data| ==> data[i] == PublicProfile(usersFor(query)[i].id, usersFor(query)[i].nickName)
  {
  }
}
