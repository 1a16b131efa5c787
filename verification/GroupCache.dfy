/** The client's cache of groups and group members, and the fan-in of the replies that fill it. */
module GroupCache {
  import opened Outcomes
  import opened Sorting

  datatype UserProfile = UserProfile(userId: int, login: string) {
    predicate IsValid() {
      userId > 0 && login != ""
    }
  }

  datatype Group = Group(id: int, name: string)

  // ------------------------------------------------------------ member lists

  function ById(): (UserProfile, UserProfile) -> bool {
    (a: UserProfile, b: UserProfile) => a.userId < b.userId
  }

  function ByLogin(less: (string, string) -> bool): (UserProfile, UserProfile) -> bool {
    (a: UserProfile, b: UserProfile) => less(a.login, b.login)
  }

  function UserIds(users: seq<UserProfile>): set<int> {
    set u | u in users :: u.userId
  }

  predicate DistinctUsers(users: seq<UserProfile>) {
    forall i, j | 0 <= i < j < |users| :: users[i].userId != users[j].userId
  }

  /** What is stored for a list of users: each id of the list once, with one of the profiles the list has for it, by
      login. Which profile, if the list has several for an id, is up to the sort. */
  ghost predicate IsMemberList(less: (string, string) -> bool, users: seq<UserProfile>, list: seq<UserProfile>) {
    && Sorted(ByLogin(less), list)
    && DistinctUsers(list)
    && (forall u | u in list :: u in users)
    && UserIds(list) == UserIds(users)
  }

  /** One profile per id. */
  predicate OneProfileEach(users: seq<UserProfile>) {
    forall a, b | a in users && b in users && a.userId == b.userId :: a == b
  }

  /** The list stored does not depend on the order or on repetitions, if there is one profile per id and the
      collation tells the logins apart. */
  lemma MemberListUnique(less: (string, string) -> bool, users1: seq<UserProfile>, users2: seq<UserProfile>,
                         list1: seq<UserProfile>, list2: seq<UserProfile>)
    requires IsMemberList(less, users1, list1) && IsMemberList(less, users2, list2)
    requires (forall u :: u in users1 <==> u in users2) && OneProfileEach(users1) && Distinguishes(ByLogin(less), users1)
    ensures list1 == list2
  {
    MembersIncluded(less, users1, users2, list1, list2);
    MembersIncluded(less, users2, users1, list2, list1);
    SameElementsOnce(list1, list2);
    SortedUnique(ByLogin(less), list1, list2);
  }

  lemma MembersIncluded(less: (string, string) -> bool, users1: seq<UserProfile>, users2: seq<UserProfile>,
                        list1: seq<UserProfile>, list2: seq<UserProfile>)
    requires IsMemberList(less, users1, list1) && IsMemberList(less, users2, list2)
    requires (forall u :: u in users1 <==> u in users2) && OneProfileEach(users1)
    ensures forall u | u in list1 :: u in list2
  {
    forall u | u in list1 ensures u in list2 {
      assert u.userId in UserIds(users2);
      var v :| v in list2 && v.userId == u.userId;
      assert u == v;
    }
  }

  /** Adding a user adds its id; adding one who is a member already leaves the ids as they are. */
  lemma AddingMember(less: (string, string) -> bool, members: seq<UserProfile>, user: UserProfile, list: seq<UserProfile>)
    requires IsMemberList(less, members + [user], list)
    ensures UserIds(list) == UserIds(members) + {user.userId}
    ensures user.userId in UserIds(members) ==> UserIds(list) == UserIds(members)
  {
    assert (members + [user])[|members|] == user;
    forall id ensures id in UserIds(members + [user]) <==> id in UserIds(members) || id == user.userId {
      if id in UserIds(members) {
        var u :| u in members && u.userId == id;
        assert u in members + [user];
      }
    }
  }

  function Without(users: seq<UserProfile>, userId: int): seq<UserProfile> {
    if users == [] then []
    else Without(users[..|users| - 1], userId) + if users[|users| - 1].userId == userId then [] else [users[|users| - 1]]
  }

  lemma {:induction false} WithoutElements(users: seq<UserProfile>, userId: int)
    ensures forall u :: u in Without(users, userId) <==> u in users && u.userId != userId
  {
    if users != [] {
      var n := |users| - 1;
      WithoutElements(users[..n], userId);
      assert users == users[..n] + [users[n]];
    }
  }

  lemma RemovingMember(less: (string, string) -> bool, members: seq<UserProfile>, userId: int, list: seq<UserProfile>)
    requires IsMemberList(less, Without(members, userId), list)
    ensures UserIds(list) == UserIds(members) - {userId}
  {
    WithoutElements(members, userId);
  }

  // ------------------------------------------------------------ the fan-in

  /** The replies gathered so far; `delivered`: what has been handed on to be stored and reported, each time. */
  datatype Loading<T> = Loading(items: seq<T>, pending: int, delivered: seq<seq<T>>)

  function Begun<T>(requests: nat): Loading<T> {
    if requests == 0 then Loading([], 0, [[]]) else Loading([], requests, [])
  }

  function Arrive<T>(s: Loading<T>, item: T): Loading<T> {
    if s.pending - 1 > 0 then Loading(s.items + [item], s.pending - 1, s.delivered)
    else Loading([], s.pending - 1, s.delivered + [s.items + [item]])
  }

  function Arrived<T>(s: Loading<T>, items: seq<T>): Loading<T> {
    if items == [] then s else Arrive(Arrived(s, items[..|items| - 1]), items[|items| - 1])
  }

  /** What is handed on is all replies, once, when the last one comes. */
  lemma {:induction false} DeliveredOnce<T>(requests: nat, items: seq<T>)
    requires |items| <= requests && requests > 0
    ensures |items| < requests ==> Arrived(Begun<T>(requests), items) == Loading(items, requests - |items|, [])
    ensures |items| == requests ==> Arrived(Begun<T>(requests), items) == Loading([], 0, [items])
    decreases |items|
  {
    if items != [] {
      var n := |items| - 1;
      DeliveredOnce(requests, items[..n]);
      ArrivedLast(Begun<T>(requests), items, Loading(items[..n], requests - n, []));
    }
  }

  lemma ArrivedLast<T>(s: Loading<T>, items: seq<T>, before: Loading<T>)
    requires items != [] && before == Arrived(s, items[..|items| - 1]) && before.items == items[..|items| - 1]
    ensures Arrived(s, items)
            == if before.pending - 1 > 0 then Loading(items, before.pending - 1, before.delivered)
               else Loading([], before.pending - 1, before.delivered + [items])
  {
    assert items[..|items| - 1] + [items[|items| - 1]] == items;
  }

  /** A reply to the request for one user. */
  datatype UserReply = UserReply(userId: int, profile: Option<UserProfile>)

  function Resolved(reply: UserReply): UserProfile {
    if reply.profile.Some? then reply.profile.value else UserProfile(reply.userId, "unknown user")
  }

  function ResolvedAll(replies: seq<UserReply>): (users: seq<UserProfile>)
    ensures |users| == |replies| && forall i | 0 <= i < |users| :: users[i] == Resolved(replies[i])
  {
    seq(|replies|, i requires 0 <= i < |replies| => Resolved(replies[i]))
  }

  function AskedFor(replies: seq<UserReply>): (ids: seq<int>)
    ensures |ids| == |replies| && forall i | 0 <= i < |ids| :: ids[i] == replies[i].userId
  {
    seq(|replies|, i requires 0 <= i < |replies| => replies[i].userId)
  }

  /** A profile that comes back is the one asked for. */
  predicate AnswersAsked(replies: seq<UserReply>) {
    forall r | r in replies :: r.profile.Some? ==> r.profile.value.userId == r.userId
  }

  /** For every list of ids, with repetitions or not, and every arrival order: nothing is delivered before the last
      reply; then one list, with each profile that came back, and with "unknown user" for each failed request; and what is
      stored for it has each id of the input exactly once and no other. */
  lemma LoadedUsers(less: (string, string) -> bool, ids: seq<int>, replies: seq<UserReply>, list: seq<UserProfile>)
    requires ids != [] && multiset(AskedFor(replies)) == multiset(ids) && AnswersAsked(replies)
    ensures forall k | 0 <= k < |replies| :: Arrived(Begun<UserProfile>(|ids|), ResolvedAll(replies)[..k]).delivered == []
    ensures Arrived(Begun<UserProfile>(|ids|), ResolvedAll(replies)).delivered == [ResolvedAll(replies)]
    ensures forall i | 0 <= i < |replies| ::
              && (replies[i].profile.Some? ==> ResolvedAll(replies)[i] == replies[i].profile.value)
              && (replies[i].profile.None? ==> ResolvedAll(replies)[i] == UserProfile(replies[i].userId, "unknown user"))
    ensures IsMemberList(less, ResolvedAll(replies), list) ==>
              DistinctUsers(list) && Sorted(ByLogin(less), list) && UserIds(list) == set id | id in ids
  {
    var users := ResolvedAll(replies);
    SameLength(AskedFor(replies), ids);
    forall k | 0 <= k < |replies| ensures Arrived(Begun<UserProfile>(|ids|), users[..k]).delivered == [] {
      DeliveredOnce(|ids|, users[..k]);
    }
    DeliveredOnce(|ids|, users);
    forall id ensures id in UserIds(users) <==> id in ids {
      assert id in AskedFor(replies) <==> id in multiset(AskedFor(replies));
      assert id in ids <==> id in multiset(ids);
    }
  }

  /** What is stored are the profiles that came back, and "unknown user" for failed requests, and nothing else. An id that
      was asked for once is stored with its own answer; a profile that comes back for it is never lost. */
  lemma StoredProfiles(less: (string, string) -> bool, replies: seq<UserReply>, list: seq<UserProfile>)
    requires AnswersAsked(replies) && IsMemberList(less, ResolvedAll(replies), list)
    ensures forall u | u in list ::
              exists r :: r in replies && r.userId == u.userId
                          && (if r.profile.Some? then r.profile.value == u else u.login == "unknown user")
    ensures forall r | r in replies && (forall q | q in replies && q.userId == r.userId :: q == r) ::
              if r.profile.Some? then r.profile.value in list else UserProfile(r.userId, "unknown user") in list
  {
    var users := ResolvedAll(replies);
    forall u | u in list
      ensures exists r :: r in replies && r.userId == u.userId
                          && (if r.profile.Some? then r.profile.value == u else u.login == "unknown user")
    {
      var i :| 0 <= i < |users| && users[i] == u;
      assert replies[i] in replies;
    }
    forall r | r in replies && (forall q | q in replies && q.userId == r.userId :: q == r)
      ensures if r.profile.Some? then r.profile.value in list else UserProfile(r.userId, "unknown user") in list
    {
      var i :| 0 <= i < |replies| && replies[i] == r;
      assert users[i] in users && users[i].userId == r.userId;
      assert r.userId in UserIds(list);
      var u :| u in list && u.userId == r.userId;
      var j :| 0 <= j < |users| && users[j] == u;
      assert replies[j].userId == r.userId;
    }
  }

  /** Two arrival orders of the same replies store the same list, if each id has one profile and the collation
      tells the logins apart. */
  lemma ArrivalOrderDoesNotMatter(less: (string, string) -> bool, replies1: seq<UserReply>, replies2: seq<UserReply>,
                                  list1: seq<UserProfile>, list2: seq<UserProfile>)
    requires multiset(replies1) == multiset(replies2)
    requires IsMemberList(less, ResolvedAll(replies1), list1) && IsMemberList(less, ResolvedAll(replies2), list2)
    requires OneProfileEach(ResolvedAll(replies1)) && Distinguishes(ByLogin(less), ResolvedAll(replies1))
    ensures list1 == list2
  {
    SameResolved(replies1, replies2);
    SameResolved(replies2, replies1);
    MemberListUnique(less, ResolvedAll(replies1), ResolvedAll(replies2), list1, list2);
  }

  lemma SameResolved(replies1: seq<UserReply>, replies2: seq<UserReply>)
    requires multiset(replies1) == multiset(replies2)
    ensures forall u | u in ResolvedAll(replies1) :: u in ResolvedAll(replies2)
  {
    forall u | u in ResolvedAll(replies1) ensures u in ResolvedAll(replies2) {
      var i :| 0 <= i < |replies1| && ResolvedAll(replies1)[i] == u;
      InOther(replies1, replies2, replies1[i]);
      var j :| 0 <= j < |replies2| && replies2[j] == replies1[i];
      assert ResolvedAll(replies2)[j] == u;
    }
  }

  // ------------------------------------------------------------ groups by id

  datatype GroupReply = GroupReply(groupId: int, group: Option<Group>)

  function ResolvedGroup(reply: GroupReply): Group {
    if reply.group.Some? then reply.group.value else Group(reply.groupId, "unknown group")
  }

  function ResolvedGroups(replies: seq<GroupReply>): (groups: seq<Group>)
    ensures |groups| == |replies| && forall i | 0 <= i < |groups| :: groups[i] == ResolvedGroup(replies[i])
  {
    seq(|replies|, i requires 0 <= i < |replies| => ResolvedGroup(replies[i]))
  }

  function WithGroups(groups: seq<Group>): map<int, Group> {
    if groups == [] then map[] else WithGroups(groups[..|groups| - 1])[groups[|groups| - 1].id := groups[|groups| - 1]]
  }

  lemma {:induction false} WithGroupsHolds(groups: seq<Group>)
    requires forall a, b | a in groups && b in groups && a.id == b.id :: a == b
    ensures forall g | g in groups :: g.id in WithGroups(groups) && WithGroups(groups)[g.id] == g
    ensures forall id | id in WithGroups(groups) :: WithGroups(groups)[id] in groups && WithGroups(groups)[id].id == id
  {
    if groups != [] {
      var n := |groups| - 1;
      WithGroupsHolds(groups[..n]);
      assert groups == groups[..n] + [groups[n]];
    }
  }

  /** Of groups with one id the last stays. */
  lemma {:induction false} WithGroupsKeepsLast(groups: seq<Group>, i: nat)
    requires i < |groups| && forall j | i < j < |groups| :: groups[j].id != groups[i].id
    ensures groups[i].id in WithGroups(groups) && WithGroups(groups)[groups[i].id] == groups[i]
  {
    var n := |groups| - 1;
    if i < n {
      assert groups[n].id != groups[i].id;
      WithGroupsKeepsLast(groups[..n], i);
    }
  }

  lemma SameGroupsSameCache(a: seq<Group>, b: seq<Group>)
    requires forall g :: g in a <==> g in b
    requires forall g, h | g in a && h in a && g.id == h.id :: g == h
    ensures WithGroups(a) == WithGroups(b)
  {
    WithGroupsHolds(a);
    WithGroupsHolds(b);
    forall id ensures id in WithGroups(a) <==> id in WithGroups(b) {
      assert id in WithGroups(a) ==> WithGroups(a)[id] in b;
      assert id in WithGroups(b) ==> WithGroups(b)[id] in a;
    }
    forall id | id in WithGroups(a) ensures WithGroups(a)[id] == WithGroups(b)[id] {
      assert WithGroups(b)[id] in a;
    }
  }

  /** Every group that came back, and "unknown group" for each failed request, is cached under its id, if each id is asked
      for once; and nothing else is. */
  lemma CachedGroups(replies: seq<GroupReply>, sorted: seq<Group>)
    requires multiset(sorted) == multiset(ResolvedGroups(replies))
    requires forall r | r in replies && r.group.Some? :: r.group.value.id == r.groupId
    requires forall q, r | q in replies && r in replies && q.groupId == r.groupId :: q == r
    ensures forall id :: id in WithGroups(sorted) <==> exists r :: r in replies && r.groupId == id
    ensures forall r | r in replies ::
              && r.groupId in WithGroups(sorted)
              && WithGroups(sorted)[r.groupId] == if r.group.Some? then r.group.value else Group(r.groupId, "unknown group")
  {
    var groups := ResolvedGroups(replies);
    forall g ensures g in sorted <==> g in groups {
      assert g in sorted <==> g in multiset(sorted);
      assert g in groups <==> g in multiset(groups);
    }
    WithGroupsHolds(sorted);
    forall r | r in replies
      ensures r.groupId in WithGroups(sorted)
              && WithGroups(sorted)[r.groupId] == if r.group.Some? then r.group.value else Group(r.groupId, "unknown group")
    {
      var i :| 0 <= i < |replies| && replies[i] == r;
      assert groups[i] in sorted;
    }
    forall id | id in WithGroups(sorted) ensures exists r :: r in replies && r.groupId == id {
      var i :| 0 <= i < |groups| && groups[i] == WithGroups(sorted)[id];
      assert replies[i] in replies;
    }
  }

  /** Two arrival orders of the same group replies, each sorted in any way, fill the cache alike, if each id has one
      reply. */
  lemma GroupOrderDoesNotMatter(replies1: seq<GroupReply>, replies2: seq<GroupReply>, sorted1: seq<Group>,
                                sorted2: seq<Group>)
    requires multiset(replies1) == multiset(replies2)
    requires multiset(sorted1) == multiset(ResolvedGroups(replies1))
    requires multiset(sorted2) == multiset(ResolvedGroups(replies2))
    requires forall a, b | a in sorted1 && b in sorted1 && a.id == b.id :: a == b
    ensures WithGroups(sorted1) == WithGroups(sorted2)
  {
    SameGroups(replies1, replies2);
    SameGroups(replies2, replies1);
    forall g ensures g in sorted1 <==> g in sorted2 {
      assert g in sorted1 <==> g in multiset(sorted1);
      assert g in sorted2 <==> g in multiset(sorted2);
      assert g in ResolvedGroups(replies1) <==> g in multiset(ResolvedGroups(replies1));
      assert g in ResolvedGroups(replies2) <==> g in multiset(ResolvedGroups(replies2));
    }
    SameGroupsSameCache(sorted1, sorted2);
  }

  lemma SameGroups(replies1: seq<GroupReply>, replies2: seq<GroupReply>)
    requires multiset(replies1) == multiset(replies2)
    ensures forall g | g in ResolvedGroups(replies1) :: g in ResolvedGroups(replies2)
  {
    forall g | g in ResolvedGroups(replies1) ensures g in ResolvedGroups(replies2) {
      var i :| 0 <= i < |replies1| && ResolvedGroups(replies1)[i] == g;
      InOther(replies1, replies2, replies1[i]);
      var j :| 0 <= j < |replies2| && replies2[j] == replies1[i];
      assert ResolvedGroups(replies2)[j] == g;
    }
  }

  // ------------------------------------------------------------ the objects

  /** The valid profiles of a list entered one after the other. */
  function WithUsers(cache: map<int, UserProfile>, users: seq<UserProfile>): map<int, UserProfile> {
    if users == [] then cache
    else
      var before, u := WithUsers(cache, users[..|users| - 1]), users[|users| - 1];
      if u.IsValid() then before[u.userId := u] else before
  }

  /** The last valid profile of an id in the list is the one cached for it ... */
  lemma {:induction false} LastValidIsCached(cache: map<int, UserProfile>, users: seq<UserProfile>, i: nat)
    requires i < |users| && users[i].userId > 0 && users[i].login != ""
    requires forall j | i < j < |users| && users[j].userId == users[i].userId :: users[j].login == ""
    ensures users[i].userId in WithUsers(cache, users) && WithUsers(cache, users)[users[i].userId] == users[i]
  {
    var n := |users| - 1;
    if i < n {
      LastValidIsCached(cache, users[..n], i);
      assert users[n].userId == users[i].userId ==> users[n].login == "";
    }
  }

  /** ... and an id without one keeps what was cached for it, or stays unknown. */
  lemma {:induction false} OthersStayCached(cache: map<int, UserProfile>, users: seq<UserProfile>, id: int)
    requires forall u | u in users && u.userId == id :: id <= 0 || u.login == ""
    ensures id in WithUsers(cache, users) <==> id in cache
    ensures id in cache ==> WithUsers(cache, users)[id] == cache[id]
  {
    if users != [] {
      var n := |users| - 1;
      assert forall u | u in users[..n] :: u in users;
      OthersStayCached(cache, users[..n], id);
      assert users[n] in users;
    }
  }

  function ByGroupName(less: (string, string) -> bool): (Group, Group) -> bool {
    (a: Group, b: Group) => less(a.name, b.name)
  }

  /** Every cached group once, by name. */
  ghost predicate IsGroupListing(less: (string, string) -> bool, cache: map<int, Group>, list: seq<Group>) {
    && Sorted(ByGroupName(less), list)
    && (forall g :: g in list <==> g.id in cache && cache[g.id] == g)
    && (forall g | g in list :: multiset(list)[g] == 1)
  }

  lemma OrdersStrictWeak(less: (string, string) -> bool)
    requires StrictWeak(less)
    ensures StrictWeak(ByLogin(less)) && StrictWeak(ByGroupName(less))
  {
    forall a: UserProfile, b: UserProfile | ByLogin(less)(a, b) ensures !ByLogin(less)(b, a) {
      assert less(a.login, b.login);
    }
    forall a: UserProfile, b: UserProfile, c: UserProfile | ByLogin(less)(a, c) ensures ByLogin(less)(a, b) || ByLogin(less)(b, c) {
      assert less(a.login, b.login) || less(b.login, c.login);
    }
    forall a: Group, b: Group | ByGroupName(less)(a, b) ensures !ByGroupName(less)(b, a) {
      assert less(a.name, b.name);
    }
    forall a: Group, b: Group, c: Group | ByGroupName(less)(a, c) ensures ByGroupName(less)(a, b) || ByGroupName(less)(b, c) {
      assert less(a.name, b.name) || less(b.name, c.name);
    }
  }

  /** Of neighbours with one id the first stays. */
  function Erased(users: seq<UserProfile>): seq<UserProfile> {
    if users == [] then []
    else
      var r, u := Erased(users[..|users| - 1]), users[|users| - 1];
      if r != [] && r[|r| - 1].userId == u.userId then r else r + [u]
  }

  method EraseRepeated(users: seq<UserProfile>) returns (r: seq<UserProfile>)
    ensures r == Erased(users)
  {
    r := [];
    for i := 0 to |users|
      invariant r == Erased(users[..i])
    {
      assert users[..i + 1][..i] == users[..i];
      if r == [] || r[|r| - 1].userId != users[i].userId {
        r := r + [users[i]];
      }
    }
    assert users[..|users|] == users;
  }

  /** The first profile of each id stays. */
  lemma {:induction false} ErasedKeepsFirst(users: seq<UserProfile>, i: nat)
    requires Sorted(ById(), users) && i < |users|
    requires forall j | 0 <= j < i :: users[j].userId != users[i].userId
    ensures users[i] in Erased(users)
  {
    var n := |users| - 1;
    var r := Erased(users[..n]);
    if i < n {
      ErasedKeepsFirst(users[..n], i);
      assert users[..n][i] == users[i];
    } else if n > 0 {
      ErasedIncreases(users[..n]);
      assert users[..n][n - 1] == users[n - 1];
      assert users[n - 1].userId != users[n].userId;
    }
  }

  lemma {:induction false} ErasedIncreases(users: seq<UserProfile>)
    requires Sorted(ById(), users)
    ensures users != [] ==> Erased(users) != [] && Erased(users)[|Erased(users)| - 1].userId == users[|users| - 1].userId
    ensures forall j, k | 0 <= j < k < |Erased(users)| :: Erased(users)[j].userId < Erased(users)[k].userId
  {
    if |users| > 1 {
      var n := |users| - 1;
      ErasedIncreases(users[..n]);
      assert !ById()(users[n], users[n - 1]);
    }
  }

  lemma {:induction false} ErasedElements(users: seq<UserProfile>)
    ensures UserIds(Erased(users)) == UserIds(users) && forall u | u in Erased(users) :: u in users
  {
    if users != [] {
      var n := |users| - 1;
      var r := Erased(users[..n]);
      ErasedElements(users[..n]);
      assert users[..n + 1] == users;
      if r != [] && r[|r| - 1].userId == users[n].userId {
        assert r[|r| - 1] in r;
      } else {
        AddedId(r, users[n]);
      }
    }
  }

  lemma AddedId(users: seq<UserProfile>, user: UserProfile)
    ensures UserIds(users + [user]) == UserIds(users) + {user.userId}
  {
    assert (users + [user])[|users|] == user;
    forall id | id in UserIds(users) ensures id in UserIds(users + [user]) {
      var u :| u in users && u.userId == id;
      assert u in users + [user];
    }
  }

  class GroupRepository {
    const less: (string, string) -> bool
    var groupsById: map<int, Group>
    var usersById: map<int, UserProfile>
    var usersByGroupId: map<int, seq<UserProfile>>

    ghost predicate Valid()
      reads this
    {
      StrictWeak(less) && forall id | id in groupsById :: groupsById[id].id == id
    }

    constructor (less: (string, string) -> bool)
      requires StrictWeak(less)
      ensures Valid() && this.less == less && groupsById == map[] && usersById == map[] && usersByGroupId == map[]
    {
      this.less, groupsById, usersById, usersByGroupId := less, map[], map[], map[];
    }

    function Members(groupId: int): seq<UserProfile>
      reads this
    {
      if groupId in usersByGroupId then usersByGroupId[groupId] else []
    }

    method ReplaceGroupUsers(groupId: int, users: seq<UserProfile>)
      requires Valid()
      modifies this`usersById, this`usersByGroupId
      ensures Valid() && IsMemberList(less, users, Members(groupId))
      ensures (set u | u in Members(groupId) :: u.userId) == set u | u in users :: u.userId
      ensures forall i, j | 0 <= i < j < |Members(groupId)| ::
                && !less(Members(groupId)[j].login, Members(groupId)[i].login)
                && Members(groupId)[i].userId != Members(groupId)[j].userId
      ensures usersByGroupId == old(usersByGroupId)[groupId := Members(groupId)]
      ensures usersById == WithUsers(old(usersById), users)
    {
      for i := 0 to |users|
        invariant usersById == WithUsers(old(usersById), users[..i])
        invariant usersByGroupId == old(usersByGroupId)
      {
        assert users[..i + 1][..i] == users[..i];
        if users[i].IsValid() {
          usersById := usersById[users[i].userId := users[i]];
        }
      }
      assert users[..|users|] == users;
      OrdersStrictWeak(less);
      var byId := Sort(users, ById());
      var once := EraseRepeated(byId);
      ErasedIncreases(byId);
      ErasedElements(byId);
      var list := Sort(once, ByLogin(less));
      SortedOnceIsMemberList(less, users, byId, once, list);
      usersByGroupId := usersByGroupId[groupId := list];
    }

    method ReplaceGroups(groups: seq<Group>)
      requires Valid()
      modifies this`groupsById
      ensures Valid() && groupsById == WithGroups(groups)
    {
      groupsById := map[];
      for i := 0 to |groups|
        invariant Valid() && groupsById == WithGroups(groups[..i])
      {
        assert groups[..i + 1][..i] == groups[..i];
        groupsById := groupsById[groups[i].id := groups[i]];
      }
      assert groups[..|groups|] == groups;
    }

    /** The hash hands its entries out in any order. */
    method Groups() returns (list: seq<Group>)
      requires Valid()
      ensures IsGroupListing(less, groupsById, list)
      ensures forall i, j | 0 <= i < j < |list| :: !less(list[j].name, list[i].name)
    {
      var all: seq<Group> := [];
      var left := groupsById.Keys;
      while left != {}
        invariant left <= groupsById.Keys
        invariant forall g :: g in all <==> g.id in groupsById && g.id !in left && groupsById[g.id] == g
        invariant forall g | g in all :: multiset(all)[g] == 1
        decreases left
      {
        ghost var witnessed := SomeElement(left);
        var id :| id in left;
        assert groupsById[id] !in multiset(all);
        all := all + [groupsById[id]];
        left := left - {id};
      }
      OrdersStrictWeak(less);
      list := Sort(all, ByGroupName(less));
      forall g ensures g in all <==> g in list {
        assert g in multiset(all) <==> g in multiset(list);
      }
    }
  }

  lemma SortedOnceIsMemberList(less: (string, string) -> bool, users: seq<UserProfile>, byId: seq<UserProfile>,
                               once: seq<UserProfile>, list: seq<UserProfile>)
    requires multiset(byId) == multiset(users) && multiset(list) == multiset(once) && Sorted(ByLogin(less), list)
    requires DistinctUsers(once) && UserIds(once) == UserIds(byId) && forall u | u in once :: u in byId
    ensures IsMemberList(less, users, list)
  {
    forall u ensures (u in users <==> u in byId) && (u in list <==> u in once) {
      assert u in users <==> u in multiset(users);
      assert u in byId <==> u in multiset(byId);
      assert u in list <==> u in multiset(list);
      assert u in once <==> u in multiset(once);
    }
    SameIds(users, byId);
    SameIds(list, once);
    forall i, j | 0 <= i < j < |list| ensures list[i].userId != list[j].userId {
      InOther(list, once, list[i]);
      InOther(list, once, list[j]);
      OccursOnce(once, list[i]);
      TwoPlaces(list, i, j);
    }
  }

  lemma SameIds(a: seq<UserProfile>, b: seq<UserProfile>)
    requires forall u :: u in a <==> u in b
    ensures UserIds(a) == UserIds(b)
  {
    forall id ensures id in UserIds(a) <==> id in UserIds(b) {
      if id in UserIds(a) {
        var u :| u in a && u.userId == id;
        assert u in b;
      }
      if id in UserIds(b) {
        var u :| u in b && u.userId == id;
        assert u in a;
      }
    }
  }

  class UserLoadState {
    const groupId: int
    var users: seq<UserProfile>
    var pending: int
    var reported: seq<Result<seq<UserProfile>>>
    ghost var delivered: seq<seq<UserProfile>>

    ghost function Value(): Loading<UserProfile>
      reads this
    {
      Loading(users, pending, delivered)
    }

    constructor (groupId: int, requests: nat)
      ensures this.groupId == groupId && Value() == Loading([], requests, []) && reported == []
    {
      this.groupId, users, pending, reported, delivered := groupId, [], requests, [], [];
    }
  }

  class GroupLoadState {
    var groups: seq<Group>
    var pending: int
    var reported: seq<Result<seq<Group>>>
    ghost var delivered: seq<seq<Group>>

    ghost function Value(): Loading<Group>
      reads this
    {
      Loading(groups, pending, delivered)
    }

    constructor (requests: nat)
      ensures Value() == Loading([], requests, []) && reported == []
    {
      groups, pending, reported, delivered := [], requests, [], [];
    }
  }

  class GroupSharingService {
    const repository: GroupRepository

    constructor (repository: GroupRepository)
      ensures this.repository == repository
    {
      this.repository := repository;
    }

    /** The reply to the request for the member ids; a failure is passed on. */
    method LoadUsersByIds(groupId: int, ids: Result<seq<int>>) returns (state: UserLoadState)
      requires repository.Valid()
      modifies repository
      ensures repository.Valid() && fresh(state) && state.groupId == groupId
      ensures repository.groupsById == old(repository.groupsById) && repository.usersById == old(repository.usersById)
      ensures ids != Ok([]) ==> repository.usersByGroupId == old(repository.usersByGroupId)
      ensures forall g | g != groupId :: repository.Members(g) == old(repository.Members(g))
      ensures ids.Err? ==> state.reported == [Err(ids.error)]
      ensures ids.Ok? ==> state.Value() == Begun(|ids.value|)
      ensures ids.Ok? && ids.value != [] ==> state.reported == []
      ensures ids == Ok([]) ==> repository.Members(groupId) == [] && state.reported == [Ok([])]
    {
      if ids.Err? {
        state := new UserLoadState(groupId, 0);
        state.reported := [Err(ids.error)];
        return;
      }
      state := new UserLoadState(groupId, |ids.value|);
      if state.pending == 0 {
        repository.ReplaceGroupUsers(groupId, []);
        NoMembers(repository.less, repository.Members(groupId));
        state.reported := [Ok(repository.Members(groupId))];
        state.delivered := [[]];
      }
    }

    method LoadGroupsByIds(ids: Result<seq<int>>) returns (state: GroupLoadState)
      requires repository.Valid()
      modifies repository
      ensures repository.Valid() && fresh(state)
      ensures repository.usersById == old(repository.usersById) && repository.usersByGroupId == old(repository.usersByGroupId)
      ensures ids != Ok([]) ==> repository.groupsById == old(repository.groupsById)
      ensures ids.Err? ==> state.reported == [Err(ids.error)]
      ensures ids.Ok? ==> state.Value() == Begun(|ids.value|)
      ensures ids.Ok? && ids.value != [] ==> state.reported == []
      ensures ids == Ok([]) ==> repository.groupsById == map[] && state.reported == [Ok([])]
    {
      if ids.Err? {
        state := new GroupLoadState(0);
        state.reported := [Err(ids.error)];
        return;
      }
      state := new GroupLoadState(|ids.value|);
      if state.pending == 0 {
        repository.ReplaceGroups([]);
        var list := repository.Groups();
        NoGroups(repository.less, list);
        state.reported := [Ok(list)];
        state.delivered := [[]];
      }
    }

    /** A reply has been handed to the service's own thread. */
    method OnUserReply(state: UserLoadState, reply: UserReply)
      requires repository.Valid()
      modifies state, repository
      ensures repository.Valid() && state.Value() == Arrive(old(state.Value()), Resolved(reply))
      ensures state.pending == old(state.pending) - 1
      ensures state.pending > 0 && reply.profile.Some? ==> state.users == old(state.users) + [reply.profile.value]
      ensures state.pending > 0 && reply.profile.None? ==>
                state.users == old(state.users) + [UserProfile(reply.userId, "unknown user")]
      ensures state.pending <= 0 && reply.profile.Some? ==>
                state.delivered == old(state.delivered) + [old(state.users) + [reply.profile.value]]
      ensures repository.groupsById == old(repository.groupsById)
      ensures forall g | g != state.groupId :: repository.Members(g) == old(repository.Members(g))
      ensures state.pending > 0 ==>
                && repository.usersByGroupId == old(repository.usersByGroupId)
                && repository.usersById == old(repository.usersById) && state.reported == old(state.reported)
      ensures state.pending <= 0 ==>
                && IsMemberList(repository.less, old(state.users) + [Resolved(reply)], repository.Members(state.groupId))
                && repository.usersById == WithUsers(old(repository.usersById), old(state.users) + [Resolved(reply)])
                && state.reported == old(state.reported) + [Ok(repository.Members(state.groupId))]
    {
      state.users := state.users +
        [if reply.profile.Some? then reply.profile.value else UserProfile(reply.userId, "unknown user")];
      state.pending := state.pending - 1;
      if state.pending > 0 {
        return;
      }
      repository.ReplaceGroupUsers(state.groupId, state.users);
      state.delivered := state.delivered + [state.users];
      state.users := [];
      state.reported := state.reported + [Ok(repository.Members(state.groupId))];
    }

    method OnGroupReply(state: GroupLoadState, reply: GroupReply)
      requires repository.Valid()
      modifies state, repository
      ensures repository.Valid() && state.Value() == Arrive(old(state.Value()), ResolvedGroup(reply))
      ensures state.pending == old(state.pending) - 1
      ensures state.pending > 0 && reply.group.Some? ==> state.groups == old(state.groups) + [reply.group.value]
      ensures state.pending > 0 && reply.group.None? ==>
                state.groups == old(state.groups) + [Group(reply.groupId, "unknown group")]
      ensures state.pending <= 0 && reply.group.Some? ==>
                state.delivered == old(state.delivered) + [old(state.groups) + [reply.group.value]]
      ensures repository.usersById == old(repository.usersById) && repository.usersByGroupId == old(repository.usersByGroupId)
      ensures state.pending > 0 ==>
                repository.groupsById == old(repository.groupsById) && state.reported == old(state.reported)
      ensures state.pending <= 0 ==>
                && (exists sorted :: multiset(sorted) == multiset(old(state.groups) + [ResolvedGroup(reply)])
                                     && repository.groupsById == WithGroups(sorted))
                && (exists list :: IsGroupListing(repository.less, repository.groupsById, list)
                                   && state.reported == old(state.reported) + [Ok(list)])
    {
      state.groups := state.groups +
        [if reply.group.Some? then reply.group.value else Group(reply.groupId, "unknown group")];
      state.pending := state.pending - 1;
      if state.pending > 0 {
        return;
      }
      OrdersStrictWeak(repository.less);
      var sorted := Sort(state.groups, ByGroupName(repository.less));
      repository.ReplaceGroups(sorted);
      var list := repository.Groups();
      state.delivered := state.delivered + [state.groups];
      state.groups := [];
      state.reported := state.reported + [Ok(list)];
    }

    /** The server's reply to adding the user to the group. */
    method OnUserAdded(user: UserProfile, groupId: int, result: Result<()>)
      requires repository.Valid()
      modifies repository
      ensures repository.Valid()
      ensures result.Err? ==>
                repository.usersById == old(repository.usersById) && repository.usersByGroupId == old(repository.usersByGroupId)
      ensures result.Ok? ==>
                && IsMemberList(repository.less, old(repository.Members(groupId)) + [user], repository.Members(groupId))
                && repository.usersById
                   == WithUsers(old(repository.usersById)[user.userId := user], old(repository.Members(groupId)) + [user])
      ensures forall g | g != groupId :: repository.Members(g) == old(repository.Members(g))
      ensures repository.groupsById == old(repository.groupsById)
    {
      if result.Ok? {
        var users := repository.Members(groupId) + [user];
        repository.usersById := repository.usersById[user.userId := user];
        repository.ReplaceGroupUsers(groupId, users);
      }
    }

    method OnUserRemoved(userId: int, groupId: int, result: Result<()>)
      requires repository.Valid()
      modifies repository
      ensures repository.Valid()
      ensures result.Err? ==>
                repository.usersById == old(repository.usersById) && repository.usersByGroupId == old(repository.usersByGroupId)
      ensures result.Ok? ==>
                var left := Without(old(repository.Members(groupId)), userId);
                && IsMemberList(repository.less, left, repository.Members(groupId))
                && repository.usersById == WithUsers(old(repository.usersById), left)
      ensures forall g | g != groupId :: repository.Members(g) == old(repository.Members(g))
      ensures repository.groupsById == old(repository.groupsById)
    {
      if result.Err? {
        return;
      }
      var users := repository.Members(groupId);
      var left: seq<UserProfile> := [];
      for i := 0 to |users|
        invariant left == Without(users[..i], userId)
      {
        assert users[..i + 1][..i] == users[..i];
        if users[i].userId != userId {
          left := left + [users[i]];
        }
      }
      assert users[..|users|] == users;
      repository.ReplaceGroupUsers(groupId, left);
    }

    /** The server has created a group; the reply to adding its creator. */
    method OnGroupCreated(group: Group, currentUserId: int, result: Result<()>)
      requires repository.Valid()
      modifies repository
      ensures repository.Valid()
      ensures repository.groupsById
              == if result.Ok? then old(repository.groupsById)[group.id := group] else old(repository.groupsById)
      ensures result.Ok? && currentUserId in old(repository.usersById) ==>
                var creator := [old(repository.usersById)[currentUserId]];
                && IsMemberList(repository.less, creator, repository.Members(group.id))
                && repository.usersById == WithUsers(old(repository.usersById), creator)
      ensures result.Err? || currentUserId !in old(repository.usersById) ==>
                repository.usersById == old(repository.usersById) && repository.usersByGroupId == old(repository.usersByGroupId)
      ensures forall g | g != group.id :: repository.Members(g) == old(repository.Members(g))
    {
      if result.Err? {
        return;
      }
      repository.groupsById := repository.groupsById[group.id := group];
      if currentUserId in repository.usersById {
        repository.ReplaceGroupUsers(group.id, [repository.usersById[currentUserId]]);
      }
    }
  }

  lemma NoGroups(less: (string, string) -> bool, list: seq<Group>)
    requires IsGroupListing(less, map[], list)
    ensures list == []
  {
    forall g ensures multiset(list)[g] == 0 {
      assert g in multiset(list) <==> g in list;
    }
    var none: multiset<Group> := multiset{};
    assert |list| == |multiset(list)| && multiset(list) == none;
  }

  lemma NoMembers(less: (string, string) -> bool, list: seq<UserProfile>)
    requires IsMemberList(less, [], list)
    ensures list == []
  {
    forall u ensures multiset(list)[u] == 0 {
      assert u in multiset(list) <==> u in list;
    }
    var none: multiset<UserProfile> := multiset{};
    assert |list| == |multiset(list)| && multiset(list) == none;
  }
}
