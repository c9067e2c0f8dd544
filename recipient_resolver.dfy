/** Recipient resolution of `notifyUsersByRole`
    (src/services/notification-service.ts): the users of the external
    directory whose trimmed, lower-cased role equals a requested role,
    collected into a `Map` keyed by user id. */
module RecipientResolver {
  import opened Seqs
  import opened Text
  import opened Records

  /** The `roles` argument: one role or a list of roles. */
  datatype RoleArg = OneRole(role: string) | RoleList(roles: seq<string>)

  /** The requested roles as a list: a single role becomes a one-element
      list (src/services/notification-service.ts:90). */
  function RolesToNotify(roles: RoleArg): seq<string> {
    match roles
    case OneRole(r) => [r]
    case RoleList(rs) => rs
  }

  /** Every requested role is the empty string, the only falsy string, so
      there is nothing to resolve (src/services/notification-service.ts:91). */
  predicate AllFalsy(roles: seq<string>) {
    forall r <- roles :: r == ""
  }

  /** The key of the recipient map. */
  function UserId(u: User): string {
    u.id
  }

  /** The directory users whose role, trimmed and lower-cased, equals
      `normalizedRole`, in directory order
      (src/services/notification-service.ts:99). */
  function UsersWithRole(allUsers: seq<User>, normalizedRole: string): seq<User> {
    Filter((u: User) => Normalize(u.role) == normalizedRole, allUsers)
  }

  /** `us.forEach(user => map.set(user.id, user))` on an insertion-ordered map,
      kept as the sequence of its values. */
  function SetAll(m: seq<User>, us: seq<User>): seq<User>
    decreases |us|
  {
    if us == [] then m else UpsertBy(UserId, SetAll(m, us[..|us| - 1]), us[|us| - 1])
  }

  /** The values of `usersToNotify` after the loop over the requested roles. */
  function Recipients(allUsers: seq<User>, roles: seq<string>): seq<User>
    decreases |roles|
  {
    if roles == [] then []
    else
      var prev := Recipients(allUsers, roles[..|roles| - 1]);
      var role := roles[|roles| - 1];
      if role == "" then prev else SetAll(prev, UsersWithRole(allUsers, Normalize(role)))
  }

  /** The user has a role that normalises to some non-empty requested role. */
  ghost predicate Wanted(u: User, roles: seq<string>) {
    exists r <- roles :: r != "" && Normalize(u.role) == Normalize(r)
  }

  /** The ids of a sequence of users. */
  ghost function Ids(us: seq<User>): set<string> {
    KeySet(UserId, us)
  }

  /** Setting users into the map keeps one entry per id, adds exactly their
      ids, and every entry is an old entry or one of the users set. */
  lemma {:induction false} SetAllFacts(m: seq<User>, us: seq<User>)
    ensures KeysUnique(UserId, m) ==> KeysUnique(UserId, SetAll(m, us))
    ensures forall v <- SetAll(m, us) :: v in m || v in us
    ensures Ids(SetAll(m, us)) == Ids(m) + Ids(us)
    decreases |us|
  {
    if us != [] {
      var init := us[..|us| - 1];
      var x := us[|us| - 1];
      assert us == init + [x];
      SetAllFacts(m, init);
      var prev := SetAll(m, init);
      if KeysUnique(UserId, m) {
        UpsertKeepsKeysUnique(UserId, prev, x);
      }
      UpsertKeySet(UserId, prev, x);
      assert Ids(us) == Ids(init) + {x.id} by {
        forall k | k in Ids(us) ensures k in Ids(init) + {x.id} {
          var t :| t in us && UserId(t) == k;
          if t != x {
            assert t in init;
          }
        }
        forall k | k in Ids(init) ensures k in Ids(us) {
          var t :| t in init && UserId(t) == k;
          assert t in us;
        }
        assert x in us;
      }
    }
  }

  /** Resolution yields exactly the wanted users: one entry per id, every
      entry a directory user with a wanted role, and the id of every wanted
      directory user present. */
  lemma {:induction false} RecipientsExact(allUsers: seq<User>, roles: seq<string>)
    ensures KeysUnique(UserId, Recipients(allUsers, roles))
    ensures forall v <- Recipients(allUsers, roles) :: v in allUsers && Wanted(v, roles)
    ensures forall u <- allUsers :: Wanted(u, roles) ==> u.id in Ids(Recipients(allUsers, roles))
    decreases |roles|
  {
    if roles != [] {
      var init := roles[..|roles| - 1];
      var role := roles[|roles| - 1];
      assert roles == init + [role];
      RecipientsExact(allUsers, init);
      var prev := Recipients(allUsers, init);
      forall u | Wanted(u, init) ensures Wanted(u, roles) {
        var r :| r in init && r != "" && Normalize(u.role) == Normalize(r);
        assert r in roles;
      }
      if role != "" {
        var matching := UsersWithRole(allUsers, Normalize(role));
        SetAllFacts(prev, matching);
        forall v <- matching ensures v in allUsers && Wanted(v, roles) {
          assert role in roles;
        }
        forall u <- allUsers | Wanted(u, roles) ensures u.id in Ids(Recipients(allUsers, roles)) {
          var r :| r in roles && r != "" && Normalize(u.role) == Normalize(r);
          if r == role {
            assert u in matching;
            assert u.id in Ids(matching);
          } else {
            assert r in init;
            assert u.id in Ids(prev);
          }
        }
      } else {
        forall u <- allUsers | Wanted(u, roles) ensures u.id in Ids(prev) {
          var r :| r in roles && r != "" && Normalize(u.role) == Normalize(r);
          assert r in init;
        }
      }
    }
  }

  /** An empty role list, a list of empty roles, or roles no directory user
      has resolve to nobody. */
  lemma NoWantedUserNoRecipients(allUsers: seq<User>, roles: seq<string>)
    requires AllFalsy(roles) || forall u <- allUsers :: !Wanted(u, roles)
    ensures Recipients(allUsers, roles) == []
  {
    RecipientsExact(allUsers, roles);
  }

  /** Sets the target users into the recipient map by id, one at a time, in
      their order (src/services/notification-service.ts:100). */
  method SetEach(usersToNotify: seq<User>, targetUsers: seq<User>) returns (r: seq<User>)
    ensures r == SetAll(usersToNotify, targetUsers)
  {
    r := usersToNotify;
    var j := 0;
    while j < |targetUsers|
      invariant 0 <= j <= |targetUsers|
      invariant r == SetAll(usersToNotify, targetUsers[..j])
    {
      assert targetUsers[..j + 1][..j] == targetUsers[..j];
      r := UpsertBy(UserId, r, targetUsers[j]);
      j := j + 1;
    }
    assert targetUsers[..j] == targetUsers;
  }

  /** The loop of `notifyUsersByRole` that fills `usersToNotify`. */
  method ResolveRecipients(allUsers: seq<User>, rolesToNotify: seq<string>) returns (usersToNotify: seq<User>)
    ensures usersToNotify == Recipients(allUsers, rolesToNotify)
  {
    usersToNotify := [];
    var i := 0;
    while i < |rolesToNotify|
      invariant 0 <= i <= |rolesToNotify|
      invariant usersToNotify == Recipients(allUsers, rolesToNotify[..i])
    {
      var roleToNotify := rolesToNotify[i];
      assert rolesToNotify[..i + 1][..i] == rolesToNotify[..i];
      if roleToNotify != "" {
        var normalizedRole := Normalize(roleToNotify);
        var targetUsers := UsersWithRole(allUsers, normalizedRole);
        usersToNotify := SetEach(usersToNotify, targetUsers);
      }
      i := i + 1;
    }
    assert rolesToNotify[..i] == rolesToNotify;
  }
}
