/**
 The paged history of a user's accounts: what it selects, when its pages fit together, and how it
 agrees with the balances.
 */
module History {
  import opened Wrappers
  import opened Ledger
  import opened Interleaving

  datatype Query = Query(page: nat, limit: nat, accountId: Option<nat>, startDate: Option<int>,
                         endDate: Option<int>, kind: Option<EntryType>, description: Option<string>)

  // The ranges the request validation admits.
  predicate ValidQuery(q: Query) {
    q.page >= 1 && 1 <= q.limit <= 100
  }

  // The database's text match of a description against a pattern.
  type Like = (string, string) -> bool

  /** What the history of some accounts contains */

  predicate Selects(like: Like, q: Query, targets: set<nat>, row: Transaction) {
    && (match q.kind
        case Some(DEBIT) => row.senderId in targets
        case Some(CREDIT) => row.receiverId in targets
        case None => row.senderId in targets || row.receiverId in targets)
    && (q.startDate.Some? ==> row.createdAt >= q.startDate.value)
    && (q.endDate.Some? ==> row.createdAt <= q.endDate.value)
    && (q.description.Some? && q.description.value != "" ==> like(row.description, "%" + q.description.value + "%"))
  }

  function Selected(like: Like, q: Query, targets: set<nat>, rows: seq<Transaction>): seq<Transaction> {
    if rows == [] then []
    else
      var last := rows[|rows| - 1];
      var before := Selected(like, q, targets, rows[..|rows| - 1]);
      if Selects(like, q, targets, last) then before + [last] else before
  }

  predicate Descending(s: seq<Transaction>) {
    forall i, j :: 0 <= i < j < |s| ==> s[i].createdAt >= s[j].createdAt
  }

  // Newest first. The database may put rows of the same time in any order.
  predicate IsOrdering(order: seq<Transaction>, rows: seq<Transaction>) {
    multiset(order) == multiset(rows) && Descending(order)
  }

  function Insert(x: Transaction, s: seq<Transaction>): (r: seq<Transaction>)
    ensures multiset(r) == multiset(s) + multiset{x}
  {
    if s == [] || x.createdAt >= s[0].createdAt then [x] + s
    else
      assert s == [s[0]] + s[1..];
      [s[0]] + Insert(x, s[1..])
  }

  lemma {:induction false} InsertDescending(x: Transaction, s: seq<Transaction>)
    requires Descending(s)
    ensures Descending(Insert(x, s))
  {
    if s != [] && x.createdAt < s[0].createdAt {
      var rest := Insert(x, s[1..]);
      InsertDescending(x, s[1..]);
      forall y | y in rest
        ensures s[0].createdAt >= y.createdAt
      {
        assert y in multiset(rest);
        assert y == x || y in s[1..];
      }
    }
  }

  function NewestFirst(rows: seq<Transaction>): (r: seq<Transaction>)
    ensures IsOrdering(r, rows)
  {
    if rows == [] then []
    else
      assert rows == rows[..|rows| - 1] + [rows[|rows| - 1]];
      InsertDescending(rows[|rows| - 1], NewestFirst(rows[..|rows| - 1]));
      Insert(rows[|rows| - 1], NewestFirst(rows[..|rows| - 1]))
  }

  function Min(a: int, b: int): int {
    if a < b then a else b
  }

  // OFFSET and LIMIT.
  function Page(order: seq<Transaction>, page: nat, limit: nat): seq<Transaction>
    requires page >= 1
  {
    var skip := (page - 1) * limit;
    order[Min(skip, |order|)..Min(skip + limit, |order|)]
  }

  /** The service */

  datatype Answer = Answer(data: seq<Transaction>, total: nat, page: nat, limit: nat)

  datatype Condition =
    | SenderIn(ids: set<nat>)
    | ReceiverIn(ids: set<nat>)
    | EitherIn(ids: set<nat>)
    | NotBefore(time: int)
    | NotAfter(time: int)
    | DescriptionLike(pattern: string)

  predicate Satisfies(like: Like, row: Transaction, c: Condition) {
    match c
    case SenderIn(ids) => row.senderId in ids
    case ReceiverIn(ids) => row.receiverId in ids
    case EitherIn(ids) => row.senderId in ids || row.receiverId in ids
    case NotBefore(time) => row.createdAt >= time
    case NotAfter(time) => row.createdAt <= time
    case DescriptionLike(pattern) => like(row.description, pattern)
  }

  predicate SatisfiesAll(like: Like, row: Transaction, where: seq<Condition>) {
    forall i :: 0 <= i < |where| ==> Satisfies(like, row, where[i])
  }

  function Matching(like: Like, where: seq<Condition>, rows: seq<Transaction>): seq<Transaction> {
    if rows == [] then []
    else
      var last := rows[|rows| - 1];
      var before := Matching(like, where, rows[..|rows| - 1]);
      if SatisfiesAll(like, last, where) then before + [last] else before
  }

  lemma {:induction false} MatchingIsSelected(like: Like, where: seq<Condition>, q: Query, targets: set<nat>,
                                              rows: seq<Transaction>)
    requires forall row :: SatisfiesAll(like, row, where) <==> Selects(like, q, targets, row)
    ensures Matching(like, where, rows) == Selected(like, q, targets, rows)
  {
    if rows != [] {
      MatchingIsSelected(like, where, q, targets, rows[..|rows| - 1]);
    }
  }

  lemma AddCondition(like: Like, where: seq<Condition>, c: Condition)
    ensures forall row :: SatisfiesAll(like, row, where + [c]) <==>
              SatisfiesAll(like, row, where) && Satisfies(like, row, c)
  {
    forall row
      ensures SatisfiesAll(like, row, where + [c]) <==> SatisfiesAll(like, row, where) && Satisfies(like, row, c)
    {
      if SatisfiesAll(like, row, where + [c]) {
        forall i | 0 <= i < |where|
          ensures Satisfies(like, row, where[i])
        {
          assert (where + [c])[i] == where[i];
        }
        assert (where + [c])[|where|] == c;
      }
    }
  }

  function AccountsOf(accounts: seq<Account>, userId: nat): set<nat> {
    set i: nat | i < |accounts| && accounts[i].userId == userId
  }

  // The accounts a query is about: none if it names an account the user does not own.
  function Targets(accounts: seq<Account>, userId: nat, q: Query): set<nat> {
    var own := AccountsOf(accounts, userId);
    if q.accountId.None? then own else if q.accountId.value in own then {q.accountId.value} else {}
  }

  lemma {:induction false} SelectedByNobody(like: Like, q: Query, rows: seq<Transaction>)
    ensures Selected(like, q, {}, rows) == []
  {
    if rows != [] {
      SelectedByNobody(like, q, rows[..|rows| - 1]);
    }
  }

  lemma NoRowsPage(page: nat, limit: nat)
    requires page >= 1
    ensures IsOrdering([], []) && Page([], page, limit) == []
  {}

  method BuildConditions(like: Like, q: Query, targetAccountIds: set<nat>) returns (where: seq<Condition>)
    ensures forall row :: SatisfiesAll(like, row, where) <==> Selects(like, q, targetAccountIds, row)
  {
    where := [];
    if q.kind == Some(DEBIT) {
      AddCondition(like, where, SenderIn(targetAccountIds));
      where := where + [SenderIn(targetAccountIds)];
    } else if q.kind == Some(CREDIT) {
      AddCondition(like, where, ReceiverIn(targetAccountIds));
      where := where + [ReceiverIn(targetAccountIds)];
    } else {
      AddCondition(like, where, EitherIn(targetAccountIds));
      where := where + [EitherIn(targetAccountIds)];
    }
    if q.startDate.Some? {
      AddCondition(like, where, NotBefore(q.startDate.value));
      where := where + [NotBefore(q.startDate.value)];
    }
    if q.endDate.Some? {
      AddCondition(like, where, NotAfter(q.endDate.value));
      where := where + [NotAfter(q.endDate.value)];
    }
    if q.description.Some? && q.description.value != "" {
      var pattern := "%" + q.description.value + "%";
      AddCondition(like, where, DescriptionLike(pattern));
      where := where + [DescriptionLike(pattern)];
    }
  }

  // ORDER BY created_at DESC: any ordering may come out.
  method OrderBy(rows: seq<Transaction>) returns (order: seq<Transaction>)
    ensures IsOrdering(order, rows)
  {
    assert IsOrdering(NewestFirst(rows), rows);
    order :| IsOrdering(order, rows);
  }

  // The account is the user's own and, if the query names one, the one it names.
  predicate Concerned(accounts: seq<Account>, userId: nat, q: Query, a: nat) {
    a < |accounts| && accounts[a].userId == userId && (q.accountId == None || q.accountId == Some(a))
  }

  // What the user asked for: a row with a concerned account on the side asked for, within the dates, both
  // included, and whose description contains the text, if there is one.
  predicate Wanted(accounts: seq<Account>, like: Like, userId: nat, q: Query, row: Transaction) {
    && ((q.kind != Some(CREDIT) && Concerned(accounts, userId, q, row.senderId)) ||
        (q.kind != Some(DEBIT) && Concerned(accounts, userId, q, row.receiverId)))
    && (q.startDate == None || q.startDate.value <= row.createdAt)
    && (q.endDate == None || row.createdAt <= q.endDate.value)
    && (q.description == None || q.description == Some("") || like(row.description, "%" + q.description.value + "%"))
  }

  // The positions of the rows the user asked for.
  function WantedRows(accounts: seq<Account>, like: Like, userId: nat, q: Query, rows: seq<Transaction>): set<nat> {
    set i: nat | i < |rows| && Wanted(accounts, like, userId, q, rows[i])
  }

  lemma WantedIsSelected(accounts: seq<Account>, like: Like, userId: nat, q: Query, row: Transaction)
    ensures Wanted(accounts, like, userId, q, row) <==> Selects(like, q, Targets(accounts, userId, q), row)
  {
    var targets := Targets(accounts, userId, q);
    assert forall a: nat :: a in targets <==> Concerned(accounts, userId, q, a);
  }

  lemma WantedAppended(accounts: seq<Account>, like: Like, userId: nat, q: Query, rows: seq<Transaction>)
    requires rows != []
    ensures var last := |rows| - 1;
            |WantedRows(accounts, like, userId, q, rows)| ==
            |WantedRows(accounts, like, userId, q, rows[..last])|
            + if Wanted(accounts, like, userId, q, rows[last]) then 1 else 0
  {
    var last := |rows| - 1;
    var before := WantedRows(accounts, like, userId, q, rows[..last]);
    assert last !in before;
    assert WantedRows(accounts, like, userId, q, rows) ==
           before + if Wanted(accounts, like, userId, q, rows[last]) then {last} else {};
  }

  lemma {:induction false} WantedCount(accounts: seq<Account>, like: Like, userId: nat, q: Query,
                                       rows: seq<Transaction>)
    ensures |Selected(like, q, Targets(accounts, userId, q), rows)| == |WantedRows(accounts, like, userId, q, rows)|
    decreases rows
  {
    if rows == [] {
      assert WantedRows(accounts, like, userId, q, rows) == {};
    } else {
      WantedCount(accounts, like, userId, q, rows[..|rows| - 1]);
      WantedIsSelected(accounts, like, userId, q, rows[|rows| - 1]);
      WantedAppended(accounts, like, userId, q, rows);
    }
  }

  lemma {:induction false} SelectedIsWanted(accounts: seq<Account>, like: Like, userId: nat, q: Query,
                                            rows: seq<Transaction>, row: Transaction)
    requires row in Selected(like, q, Targets(accounts, userId, q), rows)
    ensures row in rows && Wanted(accounts, like, userId, q, row)
    decreases rows
  {
    var last := |rows| - 1;
    WantedIsSelected(accounts, like, userId, q, rows[last]);
    if row != rows[last] || !Selects(like, q, Targets(accounts, userId, q), rows[last]) {
      SelectedIsWanted(accounts, like, userId, q, rows[..last], row);
      assert row in rows[..last];
    }
  }

  // Every row shown is in the table and is one the user asked for, newest first.
  ghost predicate ShowsWanted(db: Database, like: Like, userId: nat, q: Query, data: seq<Transaction>) {
    && (forall row :: row in data ==> row in db.rows && Wanted(db.accounts, like, userId, q, row))
    && (forall i, j :: 0 <= i < j < |data| ==> data[i].createdAt >= data[j].createdAt)
  }

  predicate Owns(accounts: seq<Account>, userId: nat, a: nat) {
    a < |accounts| && accounts[a].userId == userId
  }

  // Nothing of an account that is not the user's, and of the account named if there is one.
  ghost predicate ShowsOwn(db: Database, userId: nat, q: Query, data: seq<Transaction>, total: nat) {
    && (forall row :: row in data ==>
          Owns(db.accounts, userId, row.senderId) || Owns(db.accounts, userId, row.receiverId))
    && (q.accountId.Some? ==>
          forall row :: row in data ==> row.senderId == q.accountId.value || row.receiverId == q.accountId.value)
    && (q.accountId.Some? && !Owns(db.accounts, userId, q.accountId.value) ==> data == [] && total == 0)
  }

  lemma Skips(page: nat, limit: nat)
    requires page >= 1
    ensures (page - 1) * limit >= 0
  {}

  lemma Slice(order: seq<Transaction>, skip: nat, limit: nat)
    ensures var data := order[Min(skip, |order|)..Min(skip + limit, |order|)];
            && |data| == Min(limit, |order| - Min(skip, |order|))
            && (forall row :: row in data ==> row in order)
            && (Descending(order) ==> Descending(data))
  {}

  lemma PageIsWanted(db: Database, like: Like, userId: nat, q: Query, order: seq<Transaction>)
    requires ValidQuery(q)
    requires IsOrdering(order, Selected(like, q, Targets(db.accounts, userId, q), db.rows))
    ensures ShowsWanted(db, like, userId, q, Page(order, q.page, q.limit))
    ensures var skip := (q.page - 1) * q.limit;
            |Page(order, q.page, q.limit)| == Min(q.limit, |order| - Min(skip, |order|))
    ensures |order| == |WantedRows(db.accounts, like, userId, q, db.rows)|
  {
    var selected := Selected(like, q, Targets(db.accounts, userId, q), db.rows);
    var data := Page(order, q.page, q.limit);
    Skips(q.page, q.limit);
    Slice(order, (q.page - 1) * q.limit, q.limit);
    SameRows(order, selected);
    WantedCount(db.accounts, like, userId, q, db.rows);
    forall row | row in data
      ensures row in db.rows && Wanted(db.accounts, like, userId, q, row)
    {
      assert row in order;
      SelectedIsWanted(db.accounts, like, userId, q, db.rows, row);
    }
  }

  lemma WantedIsOwn(db: Database, like: Like, userId: nat, q: Query, data: seq<Transaction>, total: nat)
    requires ShowsWanted(db, like, userId, q, data)
    requires total == |WantedRows(db.accounts, like, userId, q, db.rows)|
    ensures ShowsOwn(db, userId, q, data, total)
  {
    if q.accountId.Some? && !Owns(db.accounts, userId, q.accountId.value) {
      assert forall a: nat :: !Concerned(db.accounts, userId, q, a);
      assert WantedRows(db.accounts, like, userId, q, db.rows) == {};
      if data != [] {
        assert data[0] in data;
      }
    }
  }

  /**
   The history of a user. Its total is the number of rows the user asked for, each row shown is one of them and
   so touches an account of the user, and of an account that is not the user's nothing is shown. Pages are
   filled, newest first.
   */
  method GetHistory(db: Database, like: Like, userId: nat, q: Query) returns (answer: Answer)
    requires ValidQuery(q)
    ensures var selected := Selected(like, q, Targets(db.accounts, userId, q), db.rows);
            answer.total == |selected| && answer.page == q.page && answer.limit == q.limit &&
            exists order :: IsOrdering(order, selected) && answer.data == Page(order, q.page, q.limit)
    ensures answer.total == |WantedRows(db.accounts, like, userId, q, db.rows)|
    ensures ShowsWanted(db, like, userId, q, answer.data) && ShowsOwn(db, userId, q, answer.data, answer.total)
    ensures |answer.data| == Min(q.limit, answer.total - Min((q.page - 1) * q.limit, answer.total))
  {
    ghost var targets := Targets(db.accounts, userId, q);
    var userAccounts := AccountsOf(db.accounts, userId);
    if userAccounts == {} || (q.accountId.Some? && q.accountId.value !in userAccounts) {
      SelectedByNobody(like, q, db.rows);
      assert targets == {};
      answer := Answer([], 0, q.page, q.limit);
      NoRowsPage(q.page, q.limit);
      PageIsWanted(db, like, userId, q, []);
      WantedIsOwn(db, like, userId, q, [], 0);
      return;
    }
    var targetAccountIds := userAccounts;
    if q.accountId.Some? {
      targetAccountIds := {q.accountId.value};
    }
    var where := BuildConditions(like, q, targetAccountIds);
    MatchingIsSelected(like, where, q, targets, db.rows);
    var matching := Matching(like, where, db.rows);
    var order := OrderBy(matching);
    answer := Answer(Page(order, q.page, q.limit), |matching|, q.page, q.limit);
    SameRows(order, matching);
    PageIsWanted(db, like, userId, q, order);
    WantedIsOwn(db, like, userId, q, answer.data, answer.total);
  }

  /** Paging */

  // Pages 1 to n, where each request may see another ordering.
  function Pages(orders: seq<seq<Transaction>>, limit: nat): seq<Transaction> {
    if orders == [] then []
    else Pages(orders[..|orders| - 1], limit) + Page(orders[|orders| - 1], |orders|, limit)
  }

  // The pages it takes to show `total` rows.
  function PageCount(total: nat, limit: nat): nat
    requires limit >= 1
  {
    (total + limit - 1) / limit
  }

  // Whatever orderings the database picks, the pages together are exactly the rows, newest first.
  ghost predicate PagesFit(rows: seq<Transaction>) {
    forall limit: nat, orders: seq<seq<Transaction>> ::
      1 <= limit <= 100 && |orders| == PageCount(|rows|, limit) &&
      (forall p :: 0 <= p < |orders| ==> IsOrdering(orders[p], rows)) ==>
        IsOrdering(Pages(orders, limit), rows)
  }

  ghost predicate DistinctTimes(rows: seq<Transaction>) {
    forall x, y :: x in rows && y in rows && x.createdAt == y.createdAt ==> x == y
  }

  lemma SameRows(a: seq<Transaction>, b: seq<Transaction>)
    requires multiset(a) == multiset(b)
    ensures |a| == |b| && forall x :: x in a <==> x in b
  {
    assert |multiset(a)| == |multiset(b)|;
    forall x
      ensures x in a <==> x in b
    {
      assert x in a <==> x in multiset(a);
      assert x in b <==> x in multiset(b);
    }
  }

  lemma TailRows(s: seq<Transaction>)
    requires s != []
    ensures multiset(s[1..]) == multiset(s) - multiset{s[0]}
    ensures Descending(s) ==> Descending(s[1..])
    ensures DistinctTimes(s) ==> DistinctTimes(s[1..])
  {
    assert s == [s[0]] + s[1..];
    assert forall x :: x in s[1..] ==> x in s;
  }

  lemma SameNewest(a: seq<Transaction>, b: seq<Transaction>)
    requires |a| == |b| && a != [] && (forall x :: x in a <==> x in b)
    requires Descending(a) && Descending(b) && DistinctTimes(a)
    ensures a[0] == b[0]
  {
    assert a[0] in a && b[0] in b;
    var i: nat :| i < |b| && b[i] == a[0];
    var j: nat :| j < |a| && a[j] == b[0];
  }

  lemma {:induction false} OrderingIsUnique(a: seq<Transaction>, b: seq<Transaction>)
    requires multiset(a) == multiset(b) && Descending(a) && Descending(b) && DistinctTimes(a)
    ensures a == b
  {
    SameRows(a, b);
    if a != [] {
      SameNewest(a, b);
      TailRows(a);
      TailRows(b);
      OrderingIsUnique(a[1..], b[1..]);
      SameFromParts(a, b);
    }
  }

  lemma SameFromParts(a: seq<Transaction>, b: seq<Transaction>)
    requires a != [] && b != [] && a[0] == b[0] && a[1..] == b[1..]
    ensures a == b
  {
    assert a == [a[0]] + a[1..] && b == [b[0]] + b[1..];
  }

  lemma PageAt(order: seq<Transaction>, n: nat, limit: nat)
    ensures order[..Min(n * limit, |order|)] + Page(order, n + 1, limit) == order[..Min((n + 1) * limit, |order|)]
  {
    assert (n + 1) * limit == n * limit + limit && n * limit >= 0;
  }

  lemma {:induction false} PagesOfOneOrdering(order: seq<Transaction>, orders: seq<seq<Transaction>>, limit: nat)
    requires forall p :: 0 <= p < |orders| ==> orders[p] == order
    ensures Pages(orders, limit) == order[..Min(|orders| * limit, |order|)]
  {
    if orders != [] {
      var n := |orders| - 1;
      PagesOfOneOrdering(order, orders[..n], limit);
      PageAt(order, n, limit);
    }
  }

  lemma PageCountCovers(total: nat, limit: nat)
    requires limit >= 1
    ensures PageCount(total, limit) * limit >= total
  {
    var n := PageCount(total, limit);
    assert total + limit - 1 == n * limit + (total + limit - 1) % limit;
  }

  lemma DistinctTimesFit(rows: seq<Transaction>)
    requires DistinctTimes(rows)
    ensures PagesFit(rows)
  {
    forall limit: nat, orders: seq<seq<Transaction>> |
      1 <= limit <= 100 && |orders| == PageCount(|rows|, limit) &&
      (forall p :: 0 <= p < |orders| ==> IsOrdering(orders[p], rows))
      ensures IsOrdering(Pages(orders, limit), rows)
    {
      var order := NewestFirst(rows);
      SameRows(order, rows);
      forall p | 0 <= p < |orders|
        ensures orders[p] == order
      {
        assert IsOrdering(orders[p], rows);
        OrderingIsUnique(order, orders[p]);
      }
      PagesOfOneOrdering(order, orders, limit);
      PageCountCovers(|rows|, limit);
      assert order[..|order|] == order;
    }
  }

  // Somewhere between two different rows of one time, two neighbours differ.
  lemma {:induction false} NeighboursDiffer(s: seq<Transaction>, i: nat, j: nat) returns (p: nat)
    requires i < j < |s| && s[i] != s[j]
    ensures i <= p < j && s[p] != s[p + 1]
    decreases j - i
  {
    if s[i] != s[i + 1] {
      p := i;
    } else {
      p := NeighboursDiffer(s, i + 1, j);
    }
  }

  // Two different neighbours of the same time, in some ordering of the rows.
  lemma TiedNeighbours(rows: seq<Transaction>) returns (order: seq<Transaction>, p: nat)
    requires !DistinctTimes(rows)
    ensures IsOrdering(order, rows) && p + 1 < |order|
    ensures order[p] != order[p + 1] && order[p].createdAt == order[p + 1].createdAt
  {
    order := NewestFirst(rows);
    SameRows(order, rows);
    var x, y :| x in rows && y in rows && x.createdAt == y.createdAt && x != y;
    assert x in order && y in order;
    p := TieBetween(order, x, y);
  }

  lemma TieBetween(order: seq<Transaction>, x: Transaction, y: Transaction) returns (p: nat)
    requires Descending(order) && x in order && y in order && x.createdAt == y.createdAt && x != y
    ensures p + 1 < |order| && order[p] != order[p + 1] && order[p].createdAt == order[p + 1].createdAt
  {
    var i: nat :| i < |order| && order[i] == x;
    var j: nat :| j < |order| && order[j] == y;
    if i < j {
      p := NeighboursDiffer(order, i, j);
    } else {
      p := NeighboursDiffer(order, j, i);
    }
  }

  function Swapped(order: seq<Transaction>, p: nat): seq<Transaction>
    requires p + 1 < |order|
  {
    order[p := order[p + 1]][p + 1 := order[p]]
  }

  lemma SwappedIsOrdering(order: seq<Transaction>, p: nat)
    requires p + 1 < |order| && Descending(order) && order[p].createdAt == order[p + 1].createdAt
    ensures IsOrdering(Swapped(order, p), order)
  {
    assert order == order[..p] + [order[p], order[p + 1]] + order[p + 2..];
    assert Swapped(order, p) == order[..p] + [order[p + 1], order[p]] + order[p + 2..];
  }

  lemma OneRowPage(order: seq<Transaction>, n: nat)
    requires n < |order|
    ensures Page(order, n + 1, 1) == [order[n]]
  {}

  // With one row a page, asking for the next page after the tie is resolved the other way repeats a row.
  lemma {:induction false} OneRowPages(order: seq<Transaction>, orders: seq<seq<Transaction>>, p: nat)
    requires p + 1 < |order| && |orders| <= |order|
    requires forall q :: 0 <= q < |orders| ==> orders[q] == if q == p + 1 then Swapped(order, p) else order
    ensures Pages(orders, 1) == order[p + 1 := order[p]][..|orders|]
  {
    if orders != [] {
      var n := |orders| - 1;
      var repeated := order[p + 1 := order[p]];
      OneRowPages(order, orders[..n], p);
      OneRowPage(orders[n], n);
      assert orders[n][n] == repeated[n];
      assert repeated[..n] + [repeated[n]] == repeated[..n + 1];
    }
  }

  lemma RepeatedRow(order: seq<Transaction>, p: nat)
    requires p + 1 < |order| && order[p] != order[p + 1]
    ensures multiset(order[p + 1 := order[p]]) != multiset(order)
  {
    assert multiset(order[p + 1 := order[p]]) == multiset(order) - multiset{order[p + 1]} + multiset{order[p]};
    assert multiset(order[p + 1 := order[p]])[order[p]] == multiset(order)[order[p]] + 1;
  }

  // Page requests that all see `order`, except the one that sees the tie at `p` the other way round.
  function TieFlips(order: seq<Transaction>, p: nat): (orders: seq<seq<Transaction>>)
    requires p + 1 < |order|
    ensures |orders| == |order|
    ensures forall q :: 0 <= q < |orders| ==> orders[q] == if q == p + 1 then Swapped(order, p) else order
  {
    seq(|order|, q requires 0 <= q < |order| => if q == p + 1 then Swapped(order, p) else order)
  }

  lemma TiesDoNotFit(rows: seq<Transaction>)
    requires !DistinctTimes(rows)
    ensures !PagesFit(rows)
  {
    var order, p := TiedNeighbours(rows);
    var orders := TieFlips(order, p);
    FlipsRepeatARow(order, p);
    SameRows(order, rows);
    PageCountOfOne(|rows|);
    UnfitPages(rows, 1, orders);
  }

  lemma FlipsRepeatARow(order: seq<Transaction>, p: nat)
    requires p + 1 < |order| && Descending(order)
    requires order[p] != order[p + 1] && order[p].createdAt == order[p + 1].createdAt
    ensures var orders := TieFlips(order, p);
            (forall q :: 0 <= q < |orders| ==> IsOrdering(orders[q], order)) &&
            multiset(Pages(orders, 1)) != multiset(order)
  {
    SwappedIsOrdering(order, p);
    OneRowPages(order, TieFlips(order, p), p);
    WholePrefix(order[p + 1 := order[p]]);
    RepeatedRow(order, p);
  }

  lemma WholePrefix(s: seq<Transaction>)
    ensures s[..|s|] == s
  {}

  lemma UnfitPages(rows: seq<Transaction>, limit: nat, orders: seq<seq<Transaction>>)
    requires 1 <= limit <= 100 && |orders| == PageCount(|rows|, limit)
    requires forall p :: 0 <= p < |orders| ==> IsOrdering(orders[p], rows)
    requires multiset(Pages(orders, limit)) != multiset(rows)
    ensures !PagesFit(rows)
  {}

  lemma PageCountOfOne(total: nat)
    ensures PageCount(total, 1) == total
  {}

  /**
   Paging is reliable, whatever the page size and however the database orders rows of the same time,
   exactly when no two of the selected rows have the same creation time.
   */
  lemma PagesFitIffDistinctTimes(rows: seq<Transaction>)
    ensures PagesFit(rows) <==> DistinctTimes(rows)
  {
    if DistinctTimes(rows) {
      DistinctTimesFit(rows);
    } else {
      TiesDoNotFit(rows);
    }
  }

  /** Counting */

  predicate WithinTargets(targets: set<nat>, row: Transaction) {
    row.senderId in targets && row.receiverId in targets
  }

  function Within(targets: set<nat>, rows: seq<Transaction>): seq<Transaction> {
    if rows == [] then []
    else
      var last := rows[|rows| - 1];
      var before := Within(targets, rows[..|rows| - 1]);
      if WithinTargets(targets, last) then before + [last] else before
  }

  /** The unfiltered count is DEBIT plus CREDIT minus the transfers between the target accounts. */
  lemma {:induction false} CountByKind(like: Like, q: Query, targets: set<nat>, rows: seq<Transaction>)
    ensures |Selected(like, q.(kind := None), targets, rows)| ==
            |Selected(like, q.(kind := Some(DEBIT)), targets, rows)|
            + |Selected(like, q.(kind := Some(CREDIT)), targets, rows)|
            - |Selected(like, q.(kind := None), targets, Within(targets, rows))|
  {
    if rows != [] {
      var last := rows[|rows| - 1];
      CountByKind(like, q, targets, rows[..|rows| - 1]);
      if WithinTargets(targets, last) {
        var inner := Within(targets, rows);
        assert inner[..|inner| - 1] == Within(targets, rows[..|rows| - 1]);
      }
    }
  }

  /** Agreement with the balances */

  function Amount(row: Transaction): int {
    row.amount
  }

  // All history of one account, without date or text filter.
  function WholeHistory(kind: EntryType): Query {
    Query(1, 10, None, None, None, Some(kind), None)
  }

  lemma {:induction false} HistoryIsNet(like: Like, a: nat, rows: seq<Transaction>)
    requires forall i :: 0 <= i < |rows| ==> rows[i].senderId != rows[i].receiverId
    ensures Sum(Amount, Selected(like, WholeHistory(CREDIT), {a}, rows)) -
            Sum(Amount, Selected(like, WholeHistory(DEBIT), {a}, rows)) == Net(Postings(rows), a)
  {
    if rows != [] {
      var front, last := rows[..|rows| - 1], rows[|rows| - 1];
      HistoryIsNet(like, a, front);
      SumAppend(Amount, Selected(like, WholeHistory(CREDIT), {a}, front), last);
      SumAppend(Amount, Selected(like, WholeHistory(DEBIT), {a}, front), last);
      NetConcat(Postings(front), Posting(last), a);
      NetPosting(last, a);
    }
  }

  /**
   In every reachable state, an account's CREDIT history minus its DEBIT history is its balance minus
   its opening balance.
   */
  lemma HistoryAgreesWithBalance(opening: seq<int>, s: State, steps: seq<Step>, like: Like, a: nat)
    requires Initial(opening, s) && a < |Run(s, steps).db.accounts|
    ensures var db := Run(s, steps).db;
            Sum(Amount, Selected(like, WholeHistory(CREDIT), {a}, db.rows)) -
            Sum(Amount, Selected(like, WholeHistory(DEBIT), {a}, db.rows)) ==
            db.accounts[a].balance - Opening(opening, a)
  {
    ReachableInv(opening, s, steps);
    var db := Run(s, steps).db;
    forall i | 0 <= i < |db.rows|
      ensures db.rows[i].senderId != db.rows[i].receiverId
    {
      assert RowOk(db.rows[i], db);
    }
    HistoryIsNet(like, a, db.rows);
  }

  lemma SplitAt(t: seq<Transaction>, i: nat)
    requires i < |t|
    ensures t == t[..i] + [t[i]] + t[i + 1..]
    ensures multiset(t[..i] + t[i + 1..]) == multiset(t) - multiset{t[i]}
  {
    assert t == t[..i] + [t[i]] + t[i + 1..];
  }

  lemma SumWithout(f: Transaction -> int, t: seq<Transaction>, i: nat)
    requires i < |t|
    ensures Sum(f, t) == f(t[i]) + Sum(f, t[..i] + t[i + 1..])
  {
    SplitAt(t, i);
    SumConcat(f, t[..i] + [t[i]], t[i + 1..]);
    SumAppend(f, t[..i], t[i]);
    SumConcat(f, t[..i], t[i + 1..]);
  }

  lemma {:induction false} SumIgnoresOrder(f: Transaction -> int, s: seq<Transaction>, t: seq<Transaction>)
    requires multiset(s) == multiset(t)
    ensures Sum(f, s) == Sum(f, t)
  {
    SameRows(s, t);
    if s != [] {
      assert s[0] in t;
      var i: nat :| i < |t| && t[i] == s[0];
      assert s[..0] + s[1..] == s[1..];
      SplitAt(s, 0);
      SplitAt(t, i);
      SumWithout(f, s, 0);
      SumWithout(f, t, i);
      SumIgnoresOrder(f, s[1..], t[..i] + t[i + 1..]);
    }
  }

  /** Given distinct times, adding up the amounts page by page gives the sum over the whole selection. */
  lemma {:induction false} PagesAddUp(rows: seq<Transaction>, limit: nat, orders: seq<seq<Transaction>>)
    requires DistinctTimes(rows) && 1 <= limit <= 100 && |orders| == PageCount(|rows|, limit)
    requires forall p :: 0 <= p < |orders| ==> IsOrdering(orders[p], rows)
    ensures Sum(Amount, Pages(orders, limit)) == Sum(Amount, rows)
  {
    DistinctTimesFit(rows);
    assert IsOrdering(Pages(orders, limit), rows);
    SumIgnoresOrder(Amount, Pages(orders, limit), rows);
  }
}
