/**
 Agent memory (pkg/store/memory.go): an append-only log per namespace that forgets its oldest
 records once it is full. The pruned table is compared with a log that is never pruned.
 */
module Memory {

  const MAX_RECORDS_PER_NAMESPACE: nat := 500
  const MAX_RECORD_BYTES: nat := 16 * 1024
  const MAX_READ_LIMIT: nat := 50

  datatype Record = Record(
    id: nat, user: string, agent: string, namespace: string, key: string, content: string, createdAt: int)

  // -- The order of records --------------------------------------------------------------

  /** `a` comes before `b` in `ORDER BY created_at DESC, id DESC`. */
  predicate Newer(a: Record, b: Record) {
    a.createdAt > b.createdAt || (a.createdAt == b.createdAt && a.id > b.id)
  }

  ghost predicate DistinctIds(s: set<Record>) {
    forall a, b :: a in s && b in s && a.id == b.id ==> a == b
  }

  /** `part` holds every record of `whole` that is newer than one it holds. */
  ghost predicate NewestPart(part: set<Record>, whole: set<Record>) {
    part <= whole && forall x, y :: x in part && y in whole && Newer(y, x) ==> y in part
  }

  function Min(a: nat, b: nat): nat {
    if a < b then a else b
  }

  /** `part` is what `ORDER BY created_at DESC, id DESC LIMIT n` selects from `whole`. */
  ghost predicate IsNewest(part: set<Record>, whole: set<Record>, n: nat) {
    NewestPart(part, whole) && |part| == Min(n, |whole|)
  }

  lemma {:induction false} SubsetSize(a: set<Record>, b: set<Record>)
    requires a <= b
    ensures |a| <= |b|
    ensures |a| == |b| ==> a == b
  {
    if a != {} {
      var x :| x in a;
      SubsetSize(a - {x}, b - {x});
    }
  }

  lemma PartsAreNested(p: set<Record>, q: set<Record>, whole: set<Record>)
    requires DistinctIds(whole) && NewestPart(p, whole) && NewestPart(q, whole)
    ensures |p| <= |q| ==> p <= q
  {
    if !(p <= q) {
      var x :| x in p && x !in q;
      forall y | y in q
        ensures y in p
      {
        assert x.id != y.id;
      }
      SubsetSize(q, p);
    }
  }

  lemma NewestUnique(p: set<Record>, q: set<Record>, whole: set<Record>, n: nat)
    requires DistinctIds(whole) && IsNewest(p, whole, n) && IsNewest(q, whole, n)
    ensures p == q
  {
    PartsAreNested(p, q, whole);
    PartsAreNested(q, p, whole);
  }

  ghost predicate IsOldest(m: Record, s: set<Record>) {
    m in s && forall x :: x in s && x != m ==> Newer(x, m)
  }

  lemma {:induction false} OldestExists(s: set<Record>)
    requires s != {} && DistinctIds(s)
    ensures exists m :: IsOldest(m, s)
  {
    var y :| y in s;
    var rest := s - {y};
    if rest == {} {
      assert s == {y};
      assert IsOldest(y, s);
    } else {
      OldestExists(rest);
      var z :| IsOldest(z, rest);
      assert y.id != z.id;
      if Newer(z, y) {
        assert forall x :: x in s && x != y ==> x in rest;
        assert IsOldest(y, s);
      } else {
        assert forall x :: x in s && x != y ==> x in rest;
        assert IsOldest(z, s);
      }
    }
  }

  lemma {:induction false} NewestExists(s: set<Record>, n: nat)
    requires DistinctIds(s)
    ensures exists part :: IsNewest(part, s, n)
    decreases |s|
  {
    if |s| <= n {
      assert IsNewest(s, s, n);
    } else {
      OldestExists(s);
      var m :| IsOldest(m, s);
      NewestExists(s - {m}, n);
      var part :| IsNewest(part, s - {m}, n);
      assert IsNewest(part, s, n);
    }
  }

  /** The `n` greatest records of `s`. */
  ghost function Newest(s: set<Record>, n: nat): (part: set<Record>)
    requires DistinctIds(s)
    ensures IsNewest(part, s, n)
  {
    NewestExists(s, n);
    var part :| IsNewest(part, s, n);
    part
  }

  ghost predicate Descending(rs: seq<Record>) {
    forall i, j :: 0 <= i < j < |rs| ==> Newer(rs[i], rs[j])
  }

  /** `rs` lists the members of `s`, newest first. */
  ghost predicate Lists(rs: seq<Record>, s: set<Record>) {
    Descending(rs) && forall r :: r in rs <==> r in s
  }

  function Members(rs: seq<Record>, ghost s: set<Record>): (keep: set<Record>)
    requires Lists(rs, s)
    ensures keep == s
  {
    set r | r in rs
  }

  /** There is only one way to list a set newest first, so a query has one answer. */
  lemma {:induction false} ListsUnique(a: seq<Record>, b: seq<Record>, s: set<Record>)
    requires Lists(a, s) && Lists(b, s)
    ensures a == b
  {
    ListsNothing(a, s);
    ListsNothing(b, s);
    if a != [] {
      assert a[0] in b && b[0] in a;
      ListsTail(a, s);
      ListsTail(b, s);
      ListsUnique(a[1..], b[1..], s - {a[0]});
      assert a == [a[0]] + a[1..] && b == [b[0]] + b[1..];
    }
  }

  lemma ListsNothing(a: seq<Record>, s: set<Record>)
    requires Lists(a, s)
    ensures a == [] <==> s == {}
  {
    if s != {} {
      var x :| x in s;
      assert x in a;
    }
    if a != [] {
      assert a[0] in s;
    }
  }

  lemma ListsTail(a: seq<Record>, s: set<Record>)
    requires Lists(a, s) && a != []
    ensures Lists(a[1..], s - {a[0]})
    ensures forall x :: x in s && x != a[0] ==> Newer(a[0], x)
  {
    forall r
      ensures r in a[1..] <==> r in s && r != a[0]
    {
      if r in a && r != a[0] {
        var i :| 0 <= i < |a| && a[i] == r;
        assert a[1..][i - 1] == r;
      }
      if r in a[1..] {
        var i :| 0 <= i < |a| - 1 && a[1..][i] == r;
        assert a[i + 1] == r && Newer(a[0], a[i + 1]);
      }
    }
  }

  // -- Pruned against unpruned -----------------------------------------------------------

  /** A part that kept the newest `n` records answers every shorter query like the whole. */
  lemma KeepingNewest(part: set<Record>, whole: set<Record>, n: nat, limit: nat)
    requires DistinctIds(whole) && Newest(whole, n) <= part <= whole && limit <= n
    ensures Newest(part, limit) == Newest(whole, limit)
  {
    var kept, q := Newest(whole, n), Newest(whole, limit);
    PartsAreNested(q, kept, whole);
    SubsetSize(kept, part);
    SubsetSize(part, whole);
    assert IsNewest(q, part, limit);
    NewestUnique(q, Newest(part, limit), part, limit);
  }

  lemma NewestAfterInsert(s: set<Record>, r: Record, n: nat)
    requires DistinctIds(s + {r}) && r !in s
    ensures Newest(s + {r}, n) <= Newest(s, n) + {r}
  {
    var after, before := Newest(s + {r}, n), Newest(s, n);
    SubsetSize(after - {r}, s);
    PartsAreNested(after - {r}, before, s);
  }

  /** A newest part answers with the newest records of the whole, as many as it has left. */
  lemma NewestPartAnswers(part: set<Record>, whole: set<Record>, limit: nat)
    requires DistinctIds(whole) && NewestPart(part, whole)
    ensures Newest(part, limit) == Newest(whole, Min(|part|, limit))
  {
    var q := Newest(part, limit);
    SubsetSize(part, whole);
    assert IsNewest(q, whole, Min(|part|, limit));
    NewestUnique(q, Newest(whole, Min(|part|, limit)), whole, Min(|part|, limit));
  }

  // -- Statements on the table -----------------------------------------------------------

  function Slice(table: set<Record>, user: string, namespace: string): set<Record> {
    set r | r in table && r.user == user && r.namespace == namespace
  }

  /** The delete statement of a write: only the newest 500 records of the namespace stay. */
  ghost function Pruned(table: set<Record>, user: string, namespace: string): set<Record>
    requires DistinctIds(table)
  {
    var slice := Slice(table, user, namespace);
    table - slice + Newest(slice, MAX_RECORDS_PER_NAMESPACE)
  }

  function Removed(table: set<Record>, user: string, id: nat): set<Record> {
    set r | r in table && !(r.user == user && r.id == id)
  }

  function Distance(a: int, b: int): nat {
    if a < b then b - a else a - b
  }

  /** The permitted limit nearest to the one asked for. */
  function Clamped(limit: int): (n: nat)
    ensures 1 <= n <= 50
    ensures forall m :: 1 <= m <= 50 && m != n ==> Distance(n, limit) < Distance(m, limit)
  {
    if limit < 1 then 1 else if limit > MAX_READ_LIMIT then MAX_READ_LIMIT else limit
  }

  function Matching(table: set<Record>, user: string, namespace: string, key: string): set<Record> {
    set r | r in Slice(table, user, namespace) && (key == "" || r.key == key)
  }

  /** The rows a read selects, before they are put in order. */
  ghost function Answer(table: set<Record>, user: string, namespace: string, key: string, limit: int): set<Record>
    requires DistinctIds(table)
  {
    Newest(Matching(table, user, namespace, key), Clamped(limit))
  }

  /** A user's deletion takes out the one record of the user with that identifier, if there is one. */
  lemma RemovedMeans(table: set<Record>, user: string, id: nat)
    requires DistinctIds(table)
    ensures forall r :: r in Removed(table, user, id) <==> r in table && (r.user != user || r.id != id)
    ensures (forall r :: r in table ==> r.user != user || r.id != id) ==> Removed(table, user, id) == table
    ensures (exists r :: r in table && r.user == user && r.id == id) ==> |Removed(table, user, id)| == |table| - 1
  {
    if r :| r in table && r.user == user && r.id == id {
      assert Removed(table, user, id) == table - {r};
    }
  }

  /** The records of a namespace, of one key if one is given. */
  ghost predicate Concerns(r: Record, user: string, namespace: string, key: string) {
    r.user == user && r.namespace == namespace && (key == "" || r.key == key)
  }

  /** `a` is listed before `b`: it is younger, or as old with a greater identifier. */
  ghost predicate Before(a: Record, b: Record) {
    a.createdAt > b.createdAt || (a.createdAt == b.createdAt && a.id > b.id)
  }

  /** How many of the records concerned come before `r`. */
  ghost function Ahead(r: Record, table: set<Record>, user: string, namespace: string, key: string): nat {
    |set x | x in table && Concerns(x, user, namespace, key) && Before(x, r)|
  }

  /** A read selects the records concerned that fewer than the limit come before. */
  lemma AnswerMeans(table: set<Record>, user: string, namespace: string, key: string, limit: int, r: Record)
    requires DistinctIds(table)
    ensures r in Answer(table, user, namespace, key, limit) <==>
      r in table && Concerns(r, user, namespace, key) && Ahead(r, table, user, namespace, key) < Clamped(limit)
  {
    var matching := Matching(table, user, namespace, key);
    assert forall x :: x in matching <==> x in table && Concerns(x, user, namespace, key);
    if r in matching {
      RankIff(r, matching, Clamped(limit));
      assert (set x | x in matching && Newer(x, r))
          == set x | x in table && Concerns(x, user, namespace, key) && Before(x, r);
    }
  }

  /** A prune takes out, of its namespace, the records that 500 or more come before. */
  lemma PrunedMeans(table: set<Record>, user: string, namespace: string, r: Record)
    requires DistinctIds(table)
    ensures r in Pruned(table, user, namespace) <==>
      r in table && (Concerns(r, user, namespace, "") ==> Ahead(r, table, user, namespace, "") < 500)
  {
    var slice := Slice(table, user, namespace);
    assert forall x :: x in slice <==> x in table && Concerns(x, user, namespace, "");
    if r in slice {
      RankIff(r, slice, 500);
      assert (set x | x in slice && Newer(x, r))
          == set x | x in table && Concerns(x, user, namespace, "") && Before(x, r);
    }
  }

  // -- Any interleaving of statements ----------------------------------------------------

  /** `table` is what the database holds; `log` is the same history without any pruning. */
  datatype History = History(table: set<Record>, log: set<Record>) {
    ghost predicate Valid() {
      table <= log && DistinctIds(log)
    }
  }

  datatype Statement =
    | Insert(record: Record)
    | Prune(user: string, namespace: string)
    | Remove(user: string, id: nat)

  /** One statement of one of any number of concurrent callers. Identifiers are generated fresh. */
  ghost predicate Step(h: History, s: Statement, h': History) {
    && h.Valid()
    && match s
       case Insert(r) =>
         && (forall x :: x in h.log ==> x.id != r.id)
         && h' == History(h.table + {r}, h.log + {r})
       case Prune(user, namespace) =>
         h' == History(Pruned(h.table, user, namespace), h.log)
       case Remove(user, id) =>
         h' == History(Removed(h.table, user, id), Removed(h.log, user, id))
  }

  ghost predicate Behaviour(hs: seq<History>, ss: seq<Statement>) {
    && |hs| == |ss| + 1
    && hs[0] == History({}, {})
    && forall i :: 0 <= i < |ss| ==> Step(hs[i], ss[i], hs[i + 1])
  }

  lemma {:induction false} HistoryIsValid(hs: seq<History>, ss: seq<Statement>, i: nat)
    requires Behaviour(hs, ss) && i <= |ss|
    ensures hs[i].Valid()
  {
    if i > 0 {
      HistoryIsValid(hs, ss, i - 1);
      assert Step(hs[i - 1], ss[i - 1], hs[i]);
    }
  }

  /** A deletion takes the record out of the table and out of the log, and nothing else. */
  lemma RemoveStepMeans(h: History, user: string, id: nat, h': History)
    requires Step(h, Remove(user, id), h')
    ensures forall r :: r in h'.log <==> r in h.log && (r.user != user || r.id != id)
    ensures forall r :: r in h'.table <==> r in h.table && (r.user != user || r.id != id)
    ensures |h'.log| == |h.log| - (if exists r :: r in h.log && r.user == user && r.id == id then 1 else 0)
  {
    RemovedMeans(h.log, user, id);
    RemovedMeans(h.table, user, id);
  }

  ghost predicate KeepsNewest(h: History, user: string, namespace: string)
    requires h.Valid()
  {
    Newest(Slice(h.log, user, namespace), MAX_RECORDS_PER_NAMESPACE) <= h.table
  }

  lemma PruneHoldsNewest(h: History, user: string, namespace: string)
    requires h.Valid() && KeepsNewest(h, user, namespace)
    ensures Slice(Pruned(h.table, user, namespace), user, namespace)
      == Newest(Slice(h.log, user, namespace), MAX_RECORDS_PER_NAMESPACE)
  {
    KeepingNewest(Slice(h.table, user, namespace), Slice(h.log, user, namespace),
                  MAX_RECORDS_PER_NAMESPACE, MAX_RECORDS_PER_NAMESPACE);
  }

  /** Pruning one namespace leaves every other as it was. */
  lemma PruneTouchesOneNamespace(table: set<Record>, user: string, namespace: string, user': string, namespace': string)
    requires DistinctIds(table) && (user, namespace) != (user', namespace')
    ensures Slice(Pruned(table, user, namespace), user', namespace') == Slice(table, user', namespace')
  {
    assert Newest(Slice(table, user, namespace), MAX_RECORDS_PER_NAMESPACE) <= Slice(table, user, namespace);
  }

  lemma StepKeepsNewest(h: History, s: Statement, h': History, user: string, namespace: string)
    requires Step(h, s, h') && h'.Valid() && KeepsNewest(h, user, namespace) && !s.Remove?
    ensures KeepsNewest(h', user, namespace)
  {
    var whole := Slice(h.log, user, namespace);
    match s
    case Insert(r) =>
      if r.user == user && r.namespace == namespace {
        assert Slice(h'.log, user, namespace) == whole + {r};
        NewestAfterInsert(whole, r, MAX_RECORDS_PER_NAMESPACE);
      } else {
        assert Slice(h'.log, user, namespace) == whole;
      }
    case Prune(u, n) =>
      if u == user && n == namespace {
        PruneHoldsNewest(h, user, namespace);
      } else {
        PruneTouchesOneNamespace(h.table, u, n, user, namespace);
        assert Newest(whole, MAX_RECORDS_PER_NAMESPACE) <= Slice(h.table, user, namespace);
      }
  }

  /**
   Whatever the order of the timestamps and however inserts and prunes of concurrent writers
   interleave, no namespace ever loses one of the newest 500 records written to it, and right after a
   prune it holds exactly those.
   */
  lemma {:induction false} PrunedTableHoldsNewest(
      hs: seq<History>, ss: seq<Statement>, i: nat, user: string, namespace: string)
    requires Behaviour(hs, ss) && i <= |ss|
    requires forall k :: 0 <= k < i ==> !ss[k].Remove?
    ensures hs[i].Valid() && KeepsNewest(hs[i], user, namespace)
    ensures i > 0 && ss[i - 1] == Prune(user, namespace) ==>
      Slice(hs[i].table, user, namespace) == Newest(Slice(hs[i].log, user, namespace), MAX_RECORDS_PER_NAMESPACE)
  {
    HistoryIsValid(hs, ss, i);
    if i > 0 {
      PrunedTableHoldsNewest(hs, ss, i - 1, user, namespace);
      assert Step(hs[i - 1], ss[i - 1], hs[i]);
      StepKeepsNewest(hs[i - 1], ss[i - 1], hs[i], user, namespace);
      if ss[i - 1] == Prune(user, namespace) {
        PruneHoldsNewest(hs[i - 1], user, namespace);
      }
    }
  }

  /** A read without a key cannot tell the pruned table from a log that was never pruned. */
  lemma KeylessReadSeesWholeLog(
      hs: seq<History>, ss: seq<Statement>, i: nat, user: string, namespace: string, limit: int)
    requires Behaviour(hs, ss) && i <= |ss|
    requires forall k :: 0 <= k < i ==> !ss[k].Remove?
    ensures hs[i].Valid()
    ensures Answer(hs[i].table, user, namespace, "", limit) == Answer(hs[i].log, user, namespace, "", limit)
  {
    PrunedTableHoldsNewest(hs, ss, i, user, namespace);
    var part, whole := Slice(hs[i].table, user, namespace), Slice(hs[i].log, user, namespace);
    assert Matching(hs[i].table, user, namespace, "") == part;
    assert Matching(hs[i].log, user, namespace, "") == whole;
    KeepingNewest(part, whole, MAX_RECORDS_PER_NAMESPACE, Clamped(limit));
  }

  /** A read by key agrees with the unpruned log exactly when the records it should return survived. */
  lemma KeyedReadAgreesIff(h: History, user: string, namespace: string, key: string, limit: int)
    requires h.Valid()
    ensures Answer(h.table, user, namespace, key, limit) == Answer(h.log, user, namespace, key, limit)
      <==> Answer(h.log, user, namespace, key, limit) <= h.table
  {
    var part, whole := Matching(h.table, user, namespace, key), Matching(h.log, user, namespace, key);
    if Newest(whole, Clamped(limit)) <= h.table {
      KeepingNewest(part, whole, Clamped(limit), Clamped(limit));
    } else {
      assert Newest(part, Clamped(limit)) <= part;
    }
  }

  /** How many records of `s` are newer than `r`. */
  ghost function Rank(r: Record, s: set<Record>): nat {
    |set x | x in s && Newer(x, r)|
  }

  /** The newest `n` records are those with fewer than `n` newer ones. */
  lemma RankIff(r: Record, s: set<Record>, n: nat)
    requires DistinctIds(s) && r in s
    ensures r in Newest(s, n) <==> Rank(r, s) < n
  {
    var part := Newest(s, n);
    var above := set x | x in s && Newer(x, r);
    if r in part {
      assert r !in above;
      SubsetSize(above, part - {r});
    } else {
      SubsetSize(part, s);
      assert |part| == n;
      forall x | x in part
        ensures x in above
      {
        assert x.id != r.id;
      }
      SubsetSize(part, above);
    }
  }

  /**
   Right after a prune a read by key agrees with the unpruned log if and only if every record it should
   return has fewer than 500 newer records, of any key, in its namespace.
   */
  lemma KeyedReadAfterPruneIff(
      hs: seq<History>, ss: seq<Statement>, i: nat, user: string, namespace: string, key: string, limit: int)
    requires Behaviour(hs, ss) && 0 < i <= |ss| && ss[i - 1] == Prune(user, namespace)
    requires forall k :: 0 <= k < i ==> !ss[k].Remove?
    ensures hs[i].Valid()
    ensures Answer(hs[i].table, user, namespace, key, limit) == Answer(hs[i].log, user, namespace, key, limit)
      <==> forall r :: r in Answer(hs[i].log, user, namespace, key, limit) ==>
             Rank(r, Slice(hs[i].log, user, namespace)) < MAX_RECORDS_PER_NAMESPACE
  {
    PrunedTableHoldsNewest(hs, ss, i, user, namespace);
    KeyedReadAgreesIff(hs[i], user, namespace, key, limit);
    var h, slice := hs[i], Slice(hs[i].log, user, namespace);
    forall r | r in Answer(h.log, user, namespace, key, limit)
      ensures r in h.table <==> Rank(r, slice) < MAX_RECORDS_PER_NAMESPACE
    {
      assert r in slice;
      RankIff(r, slice, MAX_RECORDS_PER_NAMESPACE);
      assert r in h.table <==> r in Slice(h.table, user, namespace);
    }
  }

  /** The `i`th record of a namespace in which only the first has a key. */
  function Numbered(i: nat): Record {
    Record(i, "u", "a", "n", if i == 0 then "k" else "", "", i)
  }

  function FirstRecords(n: nat): set<Record> {
    if n == 0 then {} else FirstRecords(n - 1) + {Numbered(n - 1)}
  }

  lemma {:induction false} IsFirst(n: nat, r: Record)
    ensures r in FirstRecords(n) <==> r.id < n && r == Numbered(r.id)
  {
    if n > 0 {
      IsFirst(n - 1, r);
      assert r == Numbered(n - 1) ==> r.id == n - 1;
    }
  }

  lemma {:induction false} CountFirst(n: nat)
    ensures |FirstRecords(n)| == n
  {
    if n > 0 {
      CountFirst(n - 1);
      IsFirst(n - 1, Numbered(n - 1));
    }
  }

  lemma FirstRecordsAre(n: nat)
    ensures forall r :: r in FirstRecords(n) <==> r.id < n && r == Numbered(r.id)
    ensures |FirstRecords(n)| == n
  {
    forall r ensures r in FirstRecords(n) <==> r.id < n && r == Numbered(r.id) {
      IsFirst(n, r);
    }
    CountFirst(n);
  }

  lemma InsertNext(n: nat)
    ensures Step(History(FirstRecords(n), FirstRecords(n)), Insert(Numbered(n)),
                 History(FirstRecords(n + 1), FirstRecords(n + 1)))
  {
    FirstRecordsAre(n);
  }

  lemma {:induction false} WriteFirst(n: nat) returns (hs: seq<History>, ss: seq<Statement>)
    ensures Behaviour(hs, ss) && |ss| == n && hs[n] == History(FirstRecords(n), FirstRecords(n))
    ensures forall k :: 0 <= k < n ==> ss[k].Insert?
  {
    if n == 0 {
      hs, ss := [History({}, {})], [];
    } else {
      hs, ss := WriteFirst(n - 1);
      var h := History(FirstRecords(n), FirstRecords(n));
      InsertNext(n - 1);
      ExtendHistory(hs, ss, Insert(Numbered(n - 1)), h);
      hs, ss := hs + [h], ss + [Insert(Numbered(n - 1))];
    }
  }

  lemma ExtendHistory(hs: seq<History>, ss: seq<Statement>, s: Statement, h: History)
    requires Behaviour(hs, ss) && Step(hs[|ss|], s, h)
    ensures Behaviour(hs + [h], ss + [s])
  {
    var hs', ss' := hs + [h], ss + [s];
    forall i | 0 <= i < |ss'|
      ensures Step(hs'[i], ss'[i], hs'[i + 1])
    {
      if i < |ss| {
        assert Step(hs[i], ss[i], hs[i + 1]);
      }
    }
  }

  lemma OldestHasRank(n: nat)
    ensures Rank(Numbered(0), FirstRecords(n + 1)) == n
  {
    FirstRecordsAre(n + 1);
    FirstRecordsAre(1);
    var above := set x | x in FirstRecords(n + 1) && Newer(x, Numbered(0));
    assert above == FirstRecords(n + 1) - {Numbered(0)};
  }

  lemma OnlyKeyed(n: nat)
    requires n > 0
    ensures Matching(FirstRecords(n), "u", "n", "k") == {Numbered(0)}
  {
    FirstRecordsAre(n);
  }

  lemma WrittenAndPruned(n: nat) returns (hs: seq<History>, ss: seq<Statement>)
    ensures Behaviour(hs, ss) && |ss| == n + 1 && ss[n] == Prune("u", "n") && hs[n + 1].log == FirstRecords(n)
    ensures forall k :: 0 <= k < n ==> ss[k].Insert?
  {
    hs, ss := WriteFirst(n);
    HistoryIsValid(hs, ss, n);
    var h := History(Pruned(hs[n].table, "u", "n"), hs[n].log);
    ExtendHistory(hs, ss, Prune("u", "n"), h);
    hs, ss := hs + [h], ss + [Prune("u", "n")];
  }

  /** A key written once and followed by 500 other records: the pruned namespace no longer finds it. */
  lemma KeyedReadForgets() returns (hs: seq<History>, ss: seq<Statement>)
    ensures Behaviour(hs, ss) && |ss| == 502 && hs[502].Valid()
    ensures Answer(hs[502].log, "u", "n", "k", 1) == {Numbered(0)}
    ensures Answer(hs[502].table, "u", "n", "k", 1) != {Numbered(0)}
  {
    hs, ss := WrittenAndPruned(501);
    HistoryIsValid(hs, ss, 502);
    ForgottenAnswer(hs, ss);
  }

  lemma ForgottenAnswer(hs: seq<History>, ss: seq<Statement>)
    requires Behaviour(hs, ss) && |ss| == 502 && hs[502].Valid() && ss[501] == Prune("u", "n")
    requires forall k :: 0 <= k < 502 ==> !ss[k].Remove?
    requires hs[502].log == FirstRecords(501)
    ensures Answer(hs[502].log, "u", "n", "k", 1) == {Numbered(0)}
    ensures Answer(hs[502].table, "u", "n", "k", 1) != {Numbered(0)}
  {
    OnlyKeyed(501);
    OnlyAnswer(hs[502].log, Numbered(0));
    WholeSlice(501);
    OldestHasRank(500);
    KeyedReadAfterPruneIff(hs, ss, 502, "u", "n", "k", 1);
  }

  lemma WholeSlice(n: nat)
    ensures Slice(FirstRecords(n), "u", "n") == FirstRecords(n)
  {
    FirstRecordsAre(n);
  }

  lemma OnlyAnswer(log: set<Record>, r: Record)
    requires DistinctIds(log) && Matching(log, "u", "n", "k") == {r}
    ensures Answer(log, "u", "n", "k", 1) == {r}
  {
    var one := {r};
    assert IsNewest(one, one, Clamped(1));
    NewestUnique(one, Newest(one, Clamped(1)), one, Clamped(1));
  }

  /** The timestamps grow: an inserted record is newer than everything in the log. */
  ghost predicate Grows(h: History, s: Statement) {
    s.Insert? ==> forall x :: x in h.log ==> Newer(s.record, x)
  }

  /** With user deletions and growing timestamps the table stays the newest part of the log. */
  lemma {:induction false} DeletionsKeepNewestPart(
      hs: seq<History>, ss: seq<Statement>, i: nat, user: string, namespace: string)
    requires Behaviour(hs, ss) && i <= |ss|
    requires forall k :: 0 <= k < i ==> Grows(hs[k], ss[k])
    ensures NewestPart(Slice(hs[i].table, user, namespace), Slice(hs[i].log, user, namespace))
  {
    if i > 0 {
      DeletionsKeepNewestPart(hs, ss, i - 1, user, namespace);
      HistoryIsValid(hs, ss, i);
      var h, s := hs[i - 1], ss[i - 1];
      assert Step(h, s, hs[i]) && Grows(h, s);
      var part := Slice(h.table, user, namespace);
      match s
      case Insert(_) =>
      case Prune(u, n) =>
        if u == user && n == namespace {
          assert Slice(hs[i].table, user, namespace) == Newest(part, MAX_RECORDS_PER_NAMESPACE);
        } else {
          PruneTouchesOneNamespace(h.table, u, n, user, namespace);
        }
      case Remove(_, _) =>
        assert forall x :: x in Slice(hs[i].table, user, namespace) ==> x in part;
    }
  }

  /** So a keyless read then returns the newest records of the log, as many as the table has left. */
  lemma DeletedReadIsNewest(hs: seq<History>, ss: seq<Statement>, i: nat, user: string, namespace: string, limit: int)
    requires Behaviour(hs, ss) && i <= |ss|
    requires forall k :: 0 <= k < i ==> Grows(hs[k], ss[k])
    ensures hs[i].Valid()
    ensures var left := |Slice(hs[i].table, user, namespace)|;
            Answer(hs[i].table, user, namespace, "", limit)
              == Newest(Slice(hs[i].log, user, namespace), Min(left, Clamped(limit)))
  {
    DeletionsKeepNewestPart(hs, ss, i, user, namespace);
    HistoryIsValid(hs, ss, i);
    assert Matching(hs[i].table, user, namespace, "") == Slice(hs[i].table, user, namespace);
    NewestPartAnswers(Slice(hs[i].table, user, namespace), Slice(hs[i].log, user, namespace), Clamped(limit));
  }

  // -- The store -------------------------------------------------------------------------

  class MemoryStore {
    var table: set<Record>

    ghost predicate Valid()
      reads this
    {
      DistinctIds(table)
    }

    constructor ()
      ensures Valid() && table == {}
    {
      table := {};
    }

    /**
     Appends a record and prunes its namespace. `insertOk` and `pruneOk` say whether the database
     carried out each of the two statements; they are not one transaction, so a failed prune leaves
     the inserted record in place.
     */
    method Write(record: Record, insertOk: bool, pruneOk: bool) returns (stored: bool)
      requires Valid() && forall x :: x in table ==> x.id != record.id
      modifies this
      ensures Valid()
      ensures |record.content| > MAX_RECORD_BYTES || !insertOk ==> !stored && table == old(table)
      ensures |record.content| <= MAX_RECORD_BYTES && insertOk ==>
        && stored == pruneOk
        && DistinctIds(old(table) + {record})
        && table == if pruneOk then Pruned(old(table) + {record}, record.user, record.namespace)
                    else old(table) + {record}
      ensures |record.content| <= 16384 && insertOk ==>
        forall r :: r in table <==>
          && (r in old(table) || r == record)
          && (pruneOk && Concerns(r, record.user, record.namespace, "") ==>
                Ahead(r, old(table) + {record}, record.user, record.namespace, "") < 500)
      ensures |record.content| > 16384 ==> !stored && table == old(table)
    {
      if |record.content| > MAX_RECORD_BYTES || !insertOk {
        return false;
      }
      table := table + {record};
      if !pruneOk {
        return false;
      }
      forall r
        ensures r in Pruned(table, record.user, record.namespace) <==>
          && (r in old(table) || r == record)
          && (Concerns(r, record.user, record.namespace, "") ==>
                Ahead(r, old(table) + {record}, record.user, record.namespace, "") < 500)
      {
        PrunedMeans(table, record.user, record.namespace, r);
      }
      PruneNamespace(record.user, record.namespace);
      return true;
    }

    method PruneNamespace(user: string, namespace: string)
      requires Valid()
      modifies this
      ensures Valid() && table == Pruned(old(table), user, namespace)
    {
      var slice := Slice(table, user, namespace);
      var kept := Select(slice, MAX_RECORDS_PER_NAMESPACE);
      var keep := Members(kept, Newest(slice, MAX_RECORDS_PER_NAMESPACE));
      table := table - slice + keep;
    }

    method Read(user: string, namespace: string, key: string, limit: int) returns (page: seq<Record>)
      requires Valid()
      ensures Lists(page, Answer(table, user, namespace, key, limit))
      ensures forall i, j :: 0 <= i < j < |page| ==> Before(page[i], page[j])
      ensures forall r :: r in page <==>
        r in table && Concerns(r, user, namespace, key) && Ahead(r, table, user, namespace, key) < Clamped(limit)
    {
      forall r
        ensures r in Answer(table, user, namespace, key, limit) <==>
          r in table && Concerns(r, user, namespace, key) && Ahead(r, table, user, namespace, key) < Clamped(limit)
      {
        AnswerMeans(table, user, namespace, key, limit, r);
      }
      page := Select(Matching(table, user, namespace, key), Clamped(limit));
    }

    /** Removes one record; `found` is false when there was nothing to remove. */
    method Delete(user: string, id: nat) returns (found: bool)
      requires Valid()
      modifies this
      ensures Valid() && table == Removed(old(table), user, id)
      ensures found <==> exists r :: r in old(table) && r.user == user && r.id == id
      ensures forall r :: r in table <==> r in old(table) && (r.user != user || r.id != id)
      ensures !found ==> table == old(table)
      ensures found ==> |table| == |old(table)| - 1
    {
      RemovedMeans(table, user, id);
      found := exists r :: r in table && r.user == user && r.id == id;
      table := Removed(table, user, id);
    }
  }

  /** `taken` was taken off the top of `s`, leaving `rest`. */
  ghost predicate TopOff(s: set<Record>, taken: set<Record>, rest: set<Record>) {
    taken + rest == s && taken !! rest && forall x, y :: x in rest && y in taken ==> Newer(y, x)
  }

  lemma TopOffStep(s: set<Record>, taken: set<Record>, rest: set<Record>, m: Record)
    requires TopOff(s, taken, rest) && m in rest && forall x :: x in rest && x != m ==> Newer(m, x)
    ensures TopOff(s, taken + {m}, rest - {m})
  {
  }

  lemma TopOffIsNewest(s: set<Record>, taken: set<Record>, rest: set<Record>, n: nat)
    requires DistinctIds(s) && TopOff(s, taken, rest) && |taken| <= n && (|taken| == n || rest == {})
    ensures taken == Newest(s, n)
  {
    SubsetSize(taken, s);
    assert NewestPart(taken, s) by {
      assert forall x :: x in s ==> x in taken || x in rest;
    }
    NewestUnique(taken, Newest(s, n), s, n);
  }

  /** The ordered, limited selection: the newest remaining record is taken until the limit is reached. */
  method Select(s: set<Record>, n: nat) returns (page: seq<Record>)
    requires DistinctIds(s)
    ensures Lists(page, Newest(s, n))
  {
    page := [];
    var rest := s;
    ghost var taken := {};
    while rest != {} && |page| < n
      invariant TopOff(s, taken, rest)
      invariant Lists(page, taken)
      invariant |page| == |taken| <= n
      decreases |rest|
    {
      var m := TakeNewest(rest);
      Appended(page, taken, m);
      TopOffStep(s, taken, rest, m);
      page := page + [m];
      rest, taken := rest - {m}, taken + {m};
    }
    TopOffIsNewest(s, taken, rest, n);
  }

  lemma Appended(page: seq<Record>, s: set<Record>, m: Record)
    requires Lists(page, s) && m !in s && forall y :: y in s ==> Newer(y, m)
    ensures Lists(page + [m], s + {m})
  {
    forall i | 0 <= i < |page|
      ensures Newer(page[i], m)
    {
      assert page[i] in page;
    }
  }

  method TakeNewest(s: set<Record>) returns (m: Record)
    requires s != {} && DistinctIds(s)
    ensures m in s && forall x :: x in s && x != m ==> Newer(m, x)
  {
    m :| m in s;
    var rest := s - {m};
    while rest != {}
      invariant rest <= s && m in s && m !in rest
      invariant forall x :: x in s - rest && x != m ==> Newer(m, x)
      decreases |rest|
    {
      var x :| x in rest;
      ghost var seen := s - rest;
      rest := rest - {x};
      assert x.id != m.id;
      assert s - rest == seen + {x};
      if Newer(x, m) {
        m := x;
      }
    }
  }
}
