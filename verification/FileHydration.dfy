/** The client's file cache and its fan-out: three requests per file, whose replies come in any order and
    fill in the file list until the last one stores it. */
module FileHydration {
  import opened FileTables
  import opened Outcomes
  import opened Sorting

  datatype RemoteFile = RemoteFile(id: int, name: string, currentVersionId: int, maxVersionCount: UInt32, createdAt: int,
                                   createdBy: int, createdByLogin: string, aclLevel: AclLevel, hasActiveLock: bool,
                                   lockedByUserId: Option<int>, lockedByLogin: Option<string>, lockLeaseUntil: Option<int>)

  datatype Field = Creator | Acl | Lock

  /** A request: one field of one file. */
  type Request = (int, Field)

  datatype ActiveLock = ActiveLock(userId: int, leaseUntil: int)

  /** What the server replies about each file: None is a failure. The holder's login is looked up only after
      a lock was found, with a request of its own that may fail. */
  datatype Replies = Replies(creator: int -> Option<string>, acl: int -> Option<AclLevel>, lock: int -> Option<ActiveLock>,
                             holderLogin: int -> Option<string>)

  // ------------------------------------------------------------ one reply

  function WithCreator(file: RemoteFile, login: Option<string>): RemoteFile {
    if login.Some? then file.(createdByLogin := login.value) else file
  }

  function WithAcl(file: RemoteFile, level: Option<AclLevel>): RemoteFile {
    if level.Some? then file.(aclLevel := level.value) else file
  }

  function WithLock(file: RemoteFile, lock: Option<ActiveLock>, login: Option<string>): RemoteFile {
    match lock
    case None => file.(hasActiveLock := false, lockedByUserId := None, lockedByLogin := None, lockLeaseUntil := None)
    case Some(l) => file.(hasActiveLock := true, lockedByUserId := Some(l.userId), lockedByLogin := login,
                          lockLeaseUntil := Some(l.leaseUntil))
  }

  function Filled(file: RemoteFile, field: Field, r: Replies): RemoteFile {
    match field
    case Creator => WithCreator(file, r.creator(file.id))
    case Acl => WithAcl(file, r.acl(file.id))
    case Lock => WithLock(file, r.lock(file.id), r.holderLogin(file.id))
  }

  /** The file with all three replies: what the cache is to hold, whatever order they came in. */
  function Hydrated(file: RemoteFile, r: Replies): RemoteFile {
    file.(createdByLogin := if r.creator(file.id).Some? then r.creator(file.id).value else file.createdByLogin,
          aclLevel := if r.acl(file.id).Some? then r.acl(file.id).value else file.aclLevel,
          hasActiveLock := r.lock(file.id).Some?,
          lockedByUserId := if r.lock(file.id).Some? then Some(r.lock(file.id).value.userId) else None,
          lockedByLogin := if r.lock(file.id).Some? then r.holderLogin(file.id) else None,
          lockLeaseUntil := if r.lock(file.id).Some? then Some(r.lock(file.id).value.leaseUntil) else None)
  }

  predicate DistinctIds(files: seq<RemoteFile>) {
    forall i, j | 0 <= i < j < |files| :: files[i].id != files[j].id
  }

  /** The first file with the id is filled in; without one nothing happens. */
  function FillFirst(files: seq<RemoteFile>, request: Request, r: Replies): seq<RemoteFile> {
    if files == [] then []
    else if files[0].id == request.0 then [Filled(files[0], request.1, r)] + files[1..]
    else [files[0]] + FillFirst(files[1..], request, r)
  }

  lemma {:induction false} FillFirstIs(files: seq<RemoteFile>, request: Request, r: Replies, i: nat)
    requires i <= |files| && (i < |files| ==> files[i].id == request.0)
    requires forall k | 0 <= k < i :: files[k].id != request.0
    ensures FillFirst(files, request, r) == if i < |files| then files[i := Filled(files[i], request.1, r)] else files
  {
    if i > 0 {
      FillFirstIs(files[1..], request, r, i - 1);
      assert files == [files[0]] + files[1..];
    }
  }

  lemma FillKeepsIds(files: seq<RemoteFile>, request: Request, r: Replies)
    ensures DistinctIds(files) ==> DistinctIds(FillFirst(files, request, r))
  {
    if DistinctIds(files) {
      FillFirstAt(files, request, r);
    }
  }

  // ------------------------------------------------------------ the fan-in

  /** `callbacks`: how often the caller's callback has been called. */
  datatype Hydration = Hydration(files: seq<RemoteFile>, pending: int, cache: map<int, RemoteFile>, callbacks: nat)

  /** By id; of files with one id the last one stays. */
  function Indexed(files: seq<RemoteFile>): map<int, RemoteFile> {
    if files == [] then map[] else Indexed(files[..|files| - 1])[files[|files| - 1].id := files[|files| - 1]]
  }

  function Started(files: seq<RemoteFile>, cache: map<int, RemoteFile>): Hydration {
    if files == [] then Hydration([], 0, map[], 1) else Hydration(files, 3 * |files|, cache, 0)
  }

  function Finish(s: Hydration): Hydration {
    if s.pending - 1 > 0 then s.(pending := s.pending - 1)
    else Hydration([], s.pending - 1, Indexed(s.files), s.callbacks + 1)
  }

  function Complete(s: Hydration, request: Request, r: Replies): Hydration {
    Finish(s.(files := FillFirst(s.files, request, r)))
  }

  function Completed(s: Hydration, order: seq<Request>, r: Replies): Hydration {
    if order == [] then s else Complete(Completed(s, order[..|order| - 1], r), order[|order| - 1], r)
  }

  function Requests(files: seq<RemoteFile>): seq<Request> {
    if files == [] then []
    else [(files[0].id, Creator), (files[0].id, Acl), (files[0].id, Lock)] + Requests(files[1..])
  }

  // ------------------------------------------------------------ confluence

  /** The file with the replies to the chosen requests only. */
  function Masked(file: RemoteFile, creator: bool, acl: bool, lock: bool, r: Replies): RemoteFile {
    var a := if creator then WithCreator(file, r.creator(file.id)) else file;
    var b := if acl then WithAcl(a, r.acl(file.id)) else a;
    if lock then WithLock(b, r.lock(file.id), r.holderLogin(file.id)) else b
  }

  /** The file with the replies that have come so far. */
  function Partly(file: RemoteFile, done: seq<Request>, r: Replies): RemoteFile {
    Masked(file, (file.id, Creator) in done, (file.id, Acl) in done, (file.id, Lock) in done, r)
  }

  lemma {:induction false} FillFirstAt(files: seq<RemoteFile>, request: Request, r: Replies)
    requires DistinctIds(files)
    ensures |FillFirst(files, request, r)| == |files|
    ensures forall i | 0 <= i < |files| :: FillFirst(files, request, r)[i]
                                           == if files[i].id == request.0 then Filled(files[i], request.1, r) else files[i]
  {
    if files != [] && files[0].id != request.0 {
      FillFirstAt(files[1..], request, r);
    }
  }

  lemma PartlyNext(file: RemoteFile, done: seq<Request>, request: Request, r: Replies)
    ensures Partly(file, done + [request], r)
            == if file.id == request.0 then Filled(Partly(file, done, r), request.1, r) else Partly(file, done, r)
    ensures Partly(file, done, r).id == file.id
  {
    match request.1 {
      case Creator =>
      case Acl =>
      case Lock =>
    }
  }

  predicate PartlyFilled(files: seq<RemoteFile>, now: seq<RemoteFile>, done: seq<Request>, r: Replies) {
    |now| == |files| && forall i | 0 <= i < |files| :: now[i] == Partly(files[i], done, r)
  }

  lemma FillKeepsPartly(files: seq<RemoteFile>, now: seq<RemoteFile>, done: seq<Request>, request: Request, r: Replies)
    requires DistinctIds(files) && PartlyFilled(files, now, done, r)
    ensures PartlyFilled(files, FillFirst(now, request, r), done + [request], r)
  {
    forall i | 0 <= i < |files| ensures now[i].id == files[i].id {
      PartlyNext(files[i], done, request, r);
    }
    FillFirstAt(now, request, r);
    forall i | 0 <= i < |files| ensures FillFirst(now, request, r)[i] == Partly(files[i], done + [request], r) {
      PartlyNext(files[i], done, request, r);
    }
  }

  /** Before the last reply nothing is stored and nobody is called back. */
  lemma {:induction false} NothingBeforeLast(files: seq<RemoteFile>, cache: map<int, RemoteFile>, order: seq<Request>,
                                             r: Replies)
    requires DistinctIds(files) && |order| < 3 * |files|
    ensures var s := Completed(Started(files, cache), order, r);
            && s.pending == 3 * |files| - |order| && s.cache == cache && s.callbacks == 0
            && PartlyFilled(files, s.files, order, r)
  {
    if order != [] {
      var n := |order| - 1;
      var s := Completed(Started(files, cache), order[..n], r);
      NothingBeforeLast(files, cache, order[..n], r);
      FillKeepsPartly(files, s.files, order[..n], order[n], r);
      assert order == order[..n] + [order[n]];
    }
  }

  predicate Covers(order: seq<Request>, files: seq<RemoteFile>) {
    forall i | 0 <= i < |files| :: 
      (files[i].id, Creator) in order && (files[i].id, Acl) in order && (files[i].id, Lock) in order
  }

  lemma {:induction false} RequestsOfAll(files: seq<RemoteFile>)
    ensures |Requests(files)| == 3 * |files| && Covers(Requests(files), files)
  {
    if files != [] {
      var q := Requests(files);
      RequestsOfAll(files[1..]);
      assert q[0] == (files[0].id, Creator) && q[1] == (files[0].id, Acl) && q[2] == (files[0].id, Lock);
      assert q[3..] == Requests(files[1..]);
      forall i | 0 < i < |files|
        ensures (files[i].id, Creator) in q && (files[i].id, Acl) in q && (files[i].id, Lock) in q
      {
        assert files[1..][i - 1] == files[i];
      }
    }
  }

  /** Three requests for each file, and no others. */
  lemma {:induction false} RequestsAre(files: seq<RemoteFile>, i: nat)
    requires i < |files|
    ensures |Requests(files)| == 3 * |files|
    ensures Requests(files)[3 * i..][..3] == [(files[i].id, Creator), (files[i].id, Acl), (files[i].id, Lock)]
  {
    RequestsOfAll(files);
    var rest := Requests(files[1..]);
    assert Requests(files)[3..] == rest;
    if i > 0 {
      RequestsAre(files[1..], i - 1);
      assert Requests(files)[3 * i..] == rest[3 * (i - 1)..];
    }
  }

  lemma OrderOfAll(files: seq<RemoteFile>, order: seq<Request>)
    requires multiset(order) == multiset(Requests(files))
    ensures |order| == 3 * |files| && Covers(order, files)
  {
    RequestsOfAll(files);
    SameLength(order, Requests(files));
    forall i | 0 <= i < |files|
      ensures (files[i].id, Creator) in order && (files[i].id, Acl) in order && (files[i].id, Lock) in order
    {
      InOther(Requests(files), order, (files[i].id, Creator));
      InOther(Requests(files), order, (files[i].id, Acl));
      InOther(Requests(files), order, (files[i].id, Lock));
    }
  }

  lemma {:induction false} IndexedHolds(files: seq<RemoteFile>)
    requires DistinctIds(files)
    ensures forall f | f in files :: f.id in Indexed(files) && Indexed(files)[f.id] == f
    ensures forall id | id in Indexed(files) :: Indexed(files)[id] in files && Indexed(files)[id].id == id
  {
    if files != [] {
      var n := |files| - 1;
      IndexedHolds(files[..n]);
      assert files == files[..n] + [files[n]];
    }
  }

  /** Every id of the list and no other ... */
  lemma {:induction false} IndexedIds(files: seq<RemoteFile>)
    ensures Indexed(files).Keys == set f | f in files :: f.id
  {
    if files != [] {
      var n := |files| - 1;
      IndexedIds(files[..n]);
      assert files == files[..n] + [files[n]];
      assert (set f | f in files :: f.id) == (set f | f in files[..n] :: f.id) + {files[n].id};
    }
  }

  /** ... each with the last file that has it. */
  lemma {:induction false} IndexedKeepsLast(files: seq<RemoteFile>, i: nat)
    requires i < |files| && forall j | i < j < |files| :: files[j].id != files[i].id
    ensures files[i].id in Indexed(files) && Indexed(files)[files[i].id] == files[i]
  {
    var n := |files| - 1;
    if i < n {
      assert files[n].id != files[i].id;
      IndexedKeepsLast(files[..n], i);
    }
  }

  /** The cache the replies call for: every file of the list, hydrated, under its id, and no other. */
  ghost predicate HoldsHydrated(cache: map<int, RemoteFile>, files: seq<RemoteFile>, r: Replies) {
    && (forall f | f in files :: f.id in cache && cache[f.id] == Hydrated(f, r))
    && (forall id | id in cache :: exists f :: f in files && f.id == id)
  }

  lemma HydratedIsStored(files: seq<RemoteFile>, now: seq<RemoteFile>, done: seq<Request>, r: Replies)
    requires DistinctIds(files) && PartlyFilled(files, now, done, r) && Covers(done, files)
    ensures DistinctIds(now) && HoldsHydrated(Indexed(now), files, r)
  {
    forall i | 0 <= i < |files| ensures now[i] == Hydrated(files[i], r) {
    }
    IndexedHolds(now);
    forall f | f in files ensures f.id in Indexed(now) && Indexed(now)[f.id] == Hydrated(f, r) {
      var i :| 0 <= i < |files| && files[i] == f;
      assert now[i] in now;
    }
    forall id | id in Indexed(now) ensures exists f :: f in files && f.id == id {
      var i :| 0 <= i < |now| && now[i] == Indexed(now)[id];
      assert files[i] in files && files[i].id == id;
    }
  }

  lemma LastReplyStores(files: seq<RemoteFile>, cache: map<int, RemoteFile>, order: seq<Request>, r: Replies)
    requires DistinctIds(files) && |order| == 3 * |files| > 0 && Covers(order, files)
    ensures var e := Completed(Started(files, cache), order, r); e.callbacks == 1 && HoldsHydrated(e.cache, files, r)
  {
    var n := |order| - 1;
    var s := Completed(Started(files, cache), order[..n], r);
    NothingBeforeLast(files, cache, order[..n], r);
    FillKeepsPartly(files, s.files, order[..n], order[n], r);
    assert order == order[..n] + [order[n]];
    HydratedIsStored(files, FillFirst(s.files, order[n], r), order, r);
  }

  /** In whatever order the replies come and whichever fail, the callback is called exactly once, by the last
      of them, and the cache then holds exactly the hydrated files. */
  lemma Confluence(files: seq<RemoteFile>, cache: map<int, RemoteFile>, order: seq<Request>, r: Replies)
    requires DistinctIds(files) && files != [] && multiset(order) == multiset(Requests(files))
    ensures forall k | 0 <= k < |order| :: Completed(Started(files, cache), order[..k], r).callbacks == 0
                                           && Completed(Started(files, cache), order[..k], r).cache == cache
    ensures var e := Completed(Started(files, cache), order, r); e.callbacks == 1 && HoldsHydrated(e.cache, files, r)
  {
    OrderOfAll(files, order);
    forall k | 0 <= k < |order|
      ensures Completed(Started(files, cache), order[..k], r).callbacks == 0
              && Completed(Started(files, cache), order[..k], r).cache == cache
    {
      NothingBeforeLast(files, cache, order[..k], r);
    }
    LastReplyStores(files, cache, order, r);
  }

  /** What the cache holds of one file, field by field: the replies that succeeded; the old creator and access level where
      they did not; and no lock where none was found, with the holder's login only if that was found too. */
  lemma CachedFields(files: seq<RemoteFile>, cache: map<int, RemoteFile>, order: seq<Request>, r: Replies, f: RemoteFile)
    requires DistinctIds(files) && files != [] && multiset(order) == multiset(Requests(files)) && f in files
    ensures var e := Completed(Started(files, cache), order, r).cache;
            && f.id in e
            && var h := e[f.id];
            && h.id == f.id && h.name == f.name && h.currentVersionId == f.currentVersionId
            && h.maxVersionCount == f.maxVersionCount && h.createdAt == f.createdAt && h.createdBy == f.createdBy
            && h.createdByLogin == (match r.creator(f.id) case Some(login) => login case None => f.createdByLogin)
            && h.aclLevel == (match r.acl(f.id) case Some(level) => level case None => f.aclLevel)
            && (h.hasActiveLock <==> r.lock(f.id).Some?)
            && (match r.lock(f.id)
                case None => h.lockedByUserId == None && h.lockedByLogin == None && h.lockLeaseUntil == None
                case Some(l) => h.lockedByUserId == Some(l.userId) && h.lockedByLogin == r.holderLogin(f.id)
                                && h.lockLeaseUntil == Some(l.leaseUntil))
  {
    Confluence(files, cache, order, r);
  }

  lemma HydratedCacheUnique(a: map<int, RemoteFile>, b: map<int, RemoteFile>, files: seq<RemoteFile>, r: Replies)
    requires HoldsHydrated(a, files, r) && HoldsHydrated(b, files, r)
    ensures a == b
  {
    forall id ensures id in a <==> id in b {
      if id in a {
        var f :| f in files && f.id == id;
      }
      if id in b {
        var f :| f in files && f.id == id;
      }
    }
    forall id | id in a ensures a[id] == b[id] {
      var f :| f in files && f.id == id;
    }
  }

  /** Any two orders of the same replies end in the same cache. */
  lemma OrderDoesNotMatter(files: seq<RemoteFile>, cache: map<int, RemoteFile>, order1: seq<Request>, order2: seq<Request>,
                           r: Replies)
    requires DistinctIds(files) && files != []
    requires multiset(order1) == multiset(Requests(files)) && multiset(order2) == multiset(Requests(files))
    ensures Completed(Started(files, cache), order1, r).cache == Completed(Started(files, cache), order2, r).cache
  {
    Confluence(files, cache, order1, r);
    Confluence(files, cache, order2, r);
    var e1, e2 := Completed(Started(files, cache), order1, r), Completed(Started(files, cache), order2, r);
    HydratedCacheUnique(e1.cache, e2.cache, files, r);
  }

  // ------------------------------------------------------------ listings

  function ByName(nameLess: (string, string) -> bool): (RemoteFile, RemoteFile) -> bool {
    (a: RemoteFile, b: RemoteFile) => nameLess(a.name, b.name)
  }

  lemma ByNameStrictWeak(nameLess: (string, string) -> bool)
    requires StrictWeak(nameLess)
    ensures StrictWeak(ByName(nameLess))
  {
    var less := ByName(nameLess);
    forall a: RemoteFile, b: RemoteFile | less(a, b) ensures !less(b, a) {
      assert nameLess(a.name, b.name);
    }
    forall a: RemoteFile, b: RemoteFile, c: RemoteFile | less(a, c) ensures less(a, b) || less(b, c) {
      assert nameLess(a.name, b.name) || nameLess(b.name, c.name);
    }
  }

  ghost predicate Keyed(cache: map<int, RemoteFile>) {
    forall id | id in cache :: cache[id].id == id
  }

  /** Every cached file once, by name. */
  ghost predicate IsListing(nameLess: (string, string) -> bool, cache: map<int, RemoteFile>, list: seq<RemoteFile>) {
    && Sorted(ByName(nameLess), list)
    && DistinctIds(list)
    && forall f :: f in list <==> f.id in cache && cache[f.id] == f
  }

  lemma EmptyListing(nameLess: (string, string) -> bool, list: seq<RemoteFile>)
    requires IsListing(nameLess, map[], list)
    ensures list == []
  {
    forall f ensures multiset(list)[f] == 0 {
      assert f in multiset(list) <==> f in list;
    }
    var none: multiset<RemoteFile> := multiset{};
    assert |list| == |multiset(list)| && multiset(list) == none;
  }

  /** If the collation tells all names apart there is one listing only. */
  lemma ListingUnique(nameLess: (string, string) -> bool, cache: map<int, RemoteFile>, a: seq<RemoteFile>,
                      b: seq<RemoteFile>)
    requires IsListing(nameLess, cache, a) && IsListing(nameLess, cache, b)
    requires Distinguishes(ByName(nameLess), a)
    ensures a == b
  {
    SameElementsOnce(a, b);
    SortedUnique(ByName(nameLess), a, b);
  }

  // ------------------------------------------------------------ the objects

  class FileRepository {
    const nameLess: (string, string) -> bool
    var filesById: map<int, RemoteFile>

    ghost predicate Valid()
      reads this
    {
      StrictWeak(ByName(nameLess)) && Keyed(filesById)
    }

    constructor (nameLess: (string, string) -> bool)
      requires StrictWeak(nameLess)
      ensures Valid() && filesById == map[] && this.nameLess == nameLess
    {
      this.nameLess, filesById := nameLess, map[];
      ByNameStrictWeak(nameLess);
    }

    method ReplaceAll(files: seq<RemoteFile>)
      requires Valid()
      modifies this
      ensures Valid() && filesById == Indexed(files)
      ensures filesById.Keys == set f | f in files :: f.id
      ensures forall i | 0 <= i < |files| && (forall j | i < j < |files| :: files[j].id != files[i].id) ::
                files[i].id in filesById && filesById[files[i].id] == files[i]
    {
      filesById := map[];
      for i := 0 to |files|
        invariant Valid() && filesById == Indexed(files[..i])
      {
        assert files[..i + 1][..i] == files[..i];
        filesById := filesById[files[i].id := files[i]];
      }
      assert files[..|files|] == files;
      IndexedIds(files);
      forall i | 0 <= i < |files| && (forall j | i < j < |files| :: files[j].id != files[i].id)
        ensures files[i].id in filesById && filesById[files[i].id] == files[i]
      {
        IndexedKeepsLast(files, i);
      }
    }

    method Upsert(file: RemoteFile)
      requires Valid()
      modifies this
      ensures Valid() && filesById == old(filesById)[file.id := file]
    {
      filesById := filesById[file.id := file];
    }

    method Remove(fileId: int)
      requires Valid()
      modifies this
      ensures Valid() && filesById == old(filesById) - {fileId}
    {
      filesById := filesById - {fileId};
    }

    method FindById(fileId: int) returns (file: Option<RemoteFile>)
      requires Valid()
      ensures file == if fileId in filesById then Some(filesById[fileId]) else None
      ensures file.Some? ==> file.value.id == fileId
    {
      file := if fileId in filesById then Some(filesById[fileId]) else None;
    }

    /** The hash hands its entries out in any order. */
    method All() returns (files: seq<RemoteFile>)
      requires Valid()
      ensures IsListing(nameLess, filesById, files)
      ensures forall i, j | 0 <= i < j < |files| :: !nameLess(files[j].name, files[i].name) && files[i].id != files[j].id
      ensures forall f :: f in files <==> f.id in filesById && filesById[f.id] == f
    {
      var list: seq<RemoteFile> := [];
      var left := filesById.Keys;
      while left != {}
        invariant left <= filesById.Keys && DistinctIds(list)
        invariant forall f :: f in list <==> f.id in filesById && f.id !in left && filesById[f.id] == f
        decreases left
      {
        ghost var witnessed := SomeElement(left);
        var id :| id in left;
        forall i | 0 <= i < |list| ensures list[i].id != id {
          assert list[i] in list;
        }
        list := list + [filesById[id]];
        left := left - {id};
      }
      files := Sort(list, ByName(nameLess));
      forall f ensures f in list <==> f in files {
        assert f in multiset(list) <==> f in multiset(files);
      }
      PermutationKeepsIdsDistinct(list, files);
    }
  }

  lemma PermutationKeepsIdsDistinct(s: seq<RemoteFile>, t: seq<RemoteFile>)
    requires DistinctIds(s) && multiset(s) == multiset(t)
    ensures DistinctIds(t)
  {
    forall i, j | 0 <= i < j < |t| ensures t[i].id != t[j].id {
      InOther(t, s, t[i]);
      InOther(t, s, t[j]);
      OccursOnce(s, t[i]);
      TwoPlaces(t, i, j);
    }
  }

  class FileHydrationState {
    var files: seq<RemoteFile>
    var pending: int
    var callbacks: seq<Result<seq<RemoteFile>>>

    constructor (files: seq<RemoteFile>)
      ensures this.files == files && pending == 3 * |files| && callbacks == []
    {
      this.files, pending, callbacks := files, 3 * |files|, [];
    }
  }

  class FileCatalogService {
    const repository: FileRepository

    constructor (repository: FileRepository)
      ensures this.repository == repository
    {
      this.repository := repository;
    }

    function Value(state: FileHydrationState): Hydration
      reads state, repository
    {
      Hydration(state.files, state.pending, repository.filesById, |state.callbacks|)
    }

    /** The reply to the list request, and the fan-out. */
    method HydrateFiles(result: Result<seq<RemoteFile>>) returns (state: FileHydrationState, requested: seq<Request>)
      requires repository.Valid()
      modifies repository
      ensures repository.Valid() && fresh(state)
      ensures result.Ok? ==>
                Value(state) == Started(result.value, old(repository.filesById)) && requested == Requests(result.value)
      ensures result.Err? ==>
                repository.filesById == old(repository.filesById) && requested == [] && state.callbacks == [result]
      ensures result == Ok([]) ==> state.callbacks == [Ok([])] && repository.filesById == map[]
    {
      requested := [];
      if result.Err? {
        state := new FileHydrationState([]);
        state.callbacks := [result];
        return;
      }
      state := new FileHydrationState(result.value);
      if state.pending == 0 {
        repository.ReplaceAll([]);
        var all := repository.All();
        EmptyListing(repository.nameLess, all);
        state.callbacks := state.callbacks + [Ok(all)];
        return;
      }
      var files := result.value;
      for i := 0 to |files|
        invariant requested + Requests(files[i..]) == Requests(files)
      {
        assert files[i..][1..] == files[i + 1..];
        ghost var before := requested;
        requested := requested + [(files[i].id, Creator), (files[i].id, Acl), (files[i].id, Lock)];
        assert requested + Requests(files[i + 1..]) == before + Requests(files[i..]);
      }
      assert requested + Requests(files[|files|..]) == requested;
    }

    /** The last reply is in: the files, sorted by name, are the cache, and a listing of it is reported. */
    ghost predicate Stored(state: FileHydrationState, files: seq<RemoteFile>, reported: seq<Result<seq<RemoteFile>>>)
      reads state, repository
    {
      && state.files == []
      && (exists sorted :: Sorted(ByName(repository.nameLess), sorted) && multiset(sorted) == multiset(files)
                           && repository.filesById == Indexed(sorted))
      && (exists list :: IsListing(repository.nameLess, repository.filesById, list) && state.callbacks == reported + [Ok(list)])
    }

    /** A reply has been handed to the service's own thread. */
    method OnReply(state: FileHydrationState, request: Request, r: Replies)
      requires repository.Valid()
      modifies state, repository
      ensures repository.Valid() && state.pending == old(state.pending) - 1
      ensures state.pending > 0 ==>
                && state.files == FillFirst(old(state.files), request, r) && state.callbacks == old(state.callbacks)
                && repository.filesById == old(repository.filesById)
      ensures state.pending <= 0 ==> Stored(state, FillFirst(old(state.files), request, r), old(state.callbacks))
      ensures DistinctIds(old(state.files)) ==> Value(state) == Complete(old(Value(state)), request, r)
    {
      ghost var files := state.files;
      var i := FindFile(state.files, request.0);
      FillFirstIs(files, request, r, i);
      if i < |state.files| {
        state.files := state.files[i := Filled(state.files[i], request.1, r)];
      }
      assert state.files == FillFirst(files, request, r);
      FillKeepsIds(files, request, r);
      FinishFileHydration(state);
    }

    method FinishFileHydration(state: FileHydrationState)
      requires repository.Valid()
      modifies state, repository
      ensures repository.Valid() && state.pending == old(state.pending) - 1
      ensures state.pending > 0 ==>
                && state.files == old(state.files) && state.callbacks == old(state.callbacks)
                && repository.filesById == old(repository.filesById)
      ensures state.pending <= 0 ==> Stored(state, old(state.files), old(state.callbacks))
      ensures DistinctIds(old(state.files)) ==> Value(state) == Finish(old(Value(state)))
    {
      state.pending := state.pending - 1;
      if state.pending > 0 {
        return;
      }
      var sorted := Sort(state.files, ByName(repository.nameLess));
      if DistinctIds(state.files) {
        IndexedIgnoresOrder(state.files, sorted);
      }
      repository.ReplaceAll(sorted);
      state.files := [];
      var all := repository.All();
      state.callbacks := state.callbacks + [Ok(all)];
    }

    /** The position of the first file with the id, or the length without one. */
    static method FindFile(files: seq<RemoteFile>, fileId: int) returns (i: nat)
      ensures i <= |files| && (i < |files| ==> files[i].id == fileId)
      ensures forall k | 0 <= k < i :: files[k].id != fileId
    {
      i := 0;
      while i < |files| && files[i].id != fileId
        invariant i <= |files| && forall k | 0 <= k < i :: files[k].id != fileId
      {
        i := i + 1;
      }
    }
  }

  lemma IndexedIgnoresOrder(s: seq<RemoteFile>, t: seq<RemoteFile>)
    requires DistinctIds(s) && multiset(s) == multiset(t)
    ensures Indexed(s) == Indexed(t)
  {
    PermutationKeepsIdsDistinct(s, t);
    IndexedHolds(s);
    IndexedHolds(t);
    forall id | id in Indexed(s) ensures id in Indexed(t) && Indexed(t)[id] == Indexed(s)[id] {
      InOther(s, t, Indexed(s)[id]);
    }
    forall id | id in Indexed(t) ensures id in Indexed(s) {
      InOther(t, s, Indexed(t)[id]);
    }
  }
}
