/**
 * The user stub service (services/user_service.go): an append-only list of
 * users whose ids are assigned from the list length on creation.
 */
module UserServices {
  import opened Models

  class UserService {
    var users: seq<User>

    /** Ids are positions plus one: unique, and in insertion order. */
    ghost predicate Valid()
      reads this
    {
      forall i :: 0 <= i < |users| ==> users[i].id == i + 1
    }

    /** `NewUserService`: no users yet. */
    constructor ()
      ensures Valid()
      ensures users == []
    {
      users := [];
    }

    /** The users in insertion order; reading them changes nothing. */
    method GetUsers() returns (r: seq<User>)
      ensures r == users
    {
      r := users;
    }

    /**
     * Stores `user` with id `|users| + 1` and returns the stored record; name,
     * email and password are kept verbatim and nothing is checked for
     * uniqueness. The list grows by exactly that record at the end.
     */
    method CreateUser(user: User) returns (created: User)
      requires Valid()
      modifies this
      ensures Valid()
      ensures created == user.(id := |old(users)| + 1)
      ensures users == old(users) + [created]
    {
      created := user.(id := |users| + 1);
      users := users + [created];
    }
  }

  /** Under the invariant, no two stored users share an id. */
  lemma IdsUnique(s: UserService)
    requires s.Valid()
    ensures forall i, j :: 0 <= i < |s.users| && 0 <= j < |s.users| && s.users[i].id == s.users[j].id ==> i == j
  {
  }

  /**
   * Creating the same user twice stores two entries, with consecutive ids
   * and otherwise equal fields: there is no duplicate check.
   */
  method CreateUserTwice(s: UserService, user: User) returns (first: User, second: User)
    requires s.Valid()
    modifies s
    ensures s.Valid()
    ensures first.id == |old(s.users)| + 1 && second.id == |old(s.users)| + 2
    ensures first == second.(id := first.id)
    ensures s.users == old(s.users) + [first, second]
  {
    first := s.CreateUser(user);
    second := s.CreateUser(user);
  }

  /** On a new service, two creations get ids 1 and 2, and listing returns them in that order. */
  method FirstTwoUsers(a: User, b: User) returns (listed: seq<User>)
    ensures |listed| == 2
    ensures listed[0] == a.(id := 1) && listed[1] == b.(id := 2)
  {
    var s := new UserService();
    var x := s.CreateUser(a);
    var y := s.CreateUser(b);
    listed := s.GetUsers();
  }
}
