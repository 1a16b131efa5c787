/** What the pruning DELETE leaves: the newest versions of the file, as many as the limit allows. */
module Pruning {
  import opened FileTables
  import opened Outcomes

  ghost function RowsOf(db: Db, fileId: int): set<int> {
    set id | id in db.versions && db.versions[id].fileId == fileId
  }

  ghost function NumberOf(db: Db): map<int, int> {
    map id | id in db.versions :: db.versions[id].number
  }

  ghost function Above(ids: set<int>, number: map<int, int>, id: int): set<int>
    requires ids <= number.Keys && id in number
  {
    set j | j in ids && number[j] > number[id]
  }

  /** The elements with fewer than `limit` larger ones. */
  ghost function Top(ids: set<int>, number: map<int, int>, limit: int): set<int>
    requires ids <= number.Keys
  {
    set i | i in ids && |Above(ids, number, i)| < limit
  }

  lemma {:induction false} LeastOf(ids: set<int>, number: map<int, int>) returns (least: int)
    requires ids != {} && ids <= number.Keys
    ensures least in ids && forall i | i in ids :: number[least] <= number[i]
  {
    var x := SomeElement(ids);
    var rest := ids - {x};
    assert forall i | i in ids :: i == x || i in rest;
    if rest == {} {
      least := x;
    } else {
      var y := LeastOf(rest, number);
      least := if number[x] <= number[y] then x else y;
    }
  }

  lemma AboveLeast(ids: set<int>, number: map<int, int>, m: int)
    requires ids <= number.Keys && m in ids && forall i | i in ids :: number[m] <= number[i]
    requires forall i, j | i in ids && j in ids && number[i] == number[j] :: i == j
    ensures Above(ids, number, m) == ids - {m}
    ensures forall i | i in ids - {m} :: Above(ids, number, i) == Above(ids - {m}, number, i)
  {
    forall j | j in ids && j != m ensures number[j] > number[m] {
      assert number[j] != number[m];
    }
    forall i | i in ids - {m} ensures Above(ids, number, i) == Above(ids - {m}, number, i) {
    }
  }

  lemma {:induction false} TopCount(ids: set<int>, number: map<int, int>, limit: nat)
    requires ids <= number.Keys
    requires forall i, j | i in ids && j in ids && number[i] == number[j] :: i == j
    ensures |Top(ids, number, limit)| == if |ids| < limit then |ids| else limit
    decreases |ids|
  {
    if ids == {} {
      assert Top(ids, number, limit) == {};
    } else {
      var m := LeastOf(ids, number);
      var rest := ids - {m};
      TopCount(rest, number, limit);
      AboveLeast(ids, number, m);
      assert Top(ids, number, limit) == Top(rest, number, limit) + if |rest| < limit then {m} else {};
    }
  }

  lemma KeptAreTop(db: Db, fileId: int, limit: nat)
    ensures RowsOf(PruneVersions(db, fileId, limit), fileId) == Top(RowsOf(db, fileId), NumberOf(db), limit)
  {
    forall id | id in RowsOf(db, fileId) ensures NewerIds(db, id) == Above(RowsOf(db, fileId), NumberOf(db), id) {
    }
  }

  /** Exactly the newest min(N, all) rows of the file stay, unchanged; every row kept is newer than every row deleted;
      rows of other files stay. A negative limit keeps everything. */
  ghost predicate NewestKept(db: Db, db': Db, fileId: int, limit: int) {
    && db' == db.(versions := db'.versions)
    && (forall id | id in db'.versions :: id in db.versions && db'.versions[id] == db.versions[id])
    && (forall id | id in db.versions && db.versions[id].fileId != fileId :: id in db'.versions)
    && (limit < 0 ==> db' == db)
    && (limit >= 0 ==> |RowsOf(db', fileId)| == if |RowsOf(db, fileId)| < limit then |RowsOf(db, fileId)| else limit)
    && (forall i, j | i in RowsOf(db', fileId) && j in RowsOf(db, fileId) && j !in db'.versions ::
          db.versions[i].number > db.versions[j].number)
  }

  lemma PruneKeepsNewest(db: Db, fileId: int, limit: int)
    requires UniqueNumbers(db)
    ensures NewestKept(db, PruneVersions(db, fileId, limit), fileId, limit)
  {
    var rows, number := RowsOf(db, fileId), NumberOf(db);
    if limit >= 0 {
      TopCount(rows, number, limit);
      KeptAreTop(db, fileId, limit);
    }
    var db' := PruneVersions(db, fileId, limit);
    forall i, j | i in RowsOf(db', fileId) && j in rows && j !in db'.versions
      ensures db.versions[i].number > db.versions[j].number
    {
      if db.versions[i].number <= db.versions[j].number {
        FewerAbove(db, i, j);
      }
    }
  }

  lemma FewerAbove(db: Db, i: int, j: int)
    requires i in db.versions && j in db.versions && db.versions[i].fileId == db.versions[j].fileId
    requires db.versions[i].number <= db.versions[j].number
    ensures |NewerIds(db, j)| <= |NewerIds(db, i)|
  {
    SubsetSize(NewerIds(db, j), NewerIds(db, i));
  }

  lemma {:induction false} SubsetSize(a: set<int>, b: set<int>)
    requires a <= b
    ensures |a| <= |b|
  {
    assert b == a + (b - a);
  }

  /** After a version has been added: of a file whose bound is below 2^31 the newest rows up to the bound stay; a larger
      bound, which the conversion to a signed number makes negative, keeps all. */
  lemma CommitKeepsNewest(db: Db, t: Ticket)
    requires UniqueNumbers(db) && CommitVersion(db, t).Ok?
    ensures var kept, all := |RowsOf(CommitVersion(db, t).value, t.fileId)|, |RowsOf(db, t.fileId)| + 1;
            kept == if t.file.maxVersionCount >= 0x8000_0000 || all < t.file.maxVersionCount then all else t.file.maxVersionCount
  {
    var row := FileVersion(t.fileId, t.number, t.nameSnapshot, t.path, t.createdAt);
    var added := db.(versions := db.versions[t.newId := row]);
    assert UniqueNumbers(added);
    assert RowsOf(added, t.fileId) == RowsOf(db, t.fileId) + {t.newId};
    var updated := added.(files := db.files[t.fileId := t.file.(currentVersionId := t.newId)]);
    assert RowsOf(updated, t.fileId) == RowsOf(added, t.fileId);
    PruneKeepsNewest(updated, t.fileId, AsInt32(t.file.maxVersionCount));
  }
}
