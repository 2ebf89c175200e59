/**
 Opening and editing accounts: the retry loop that finds an unused 10-digit number, and the
 rule that every user who has an account has exactly one primary account.
 */
module Accounts {
  import opened Wrappers
  import opened Ledger

  /** Account numbers */

  function Decimal(n: nat): string {
    if n < 10 then ["0123456789"[n]] else Decimal(n / 10) + ["0123456789"[n % 10]]
  }

  function DigitValue(c: char): nat {
    if '0' <= c <= '9' then (c - '0') as nat else 0
  }

  function Parse(s: string): nat {
    if s == "" then 0 else 10 * Parse(s[..|s| - 1]) + DigitValue(s[|s| - 1])
  }

  function Power10(k: nat): nat {
    if k == 0 then 1 else 10 * Power10(k - 1)
  }

  lemma {:induction false} ParseInvertsDecimal(n: nat)
    ensures Parse(Decimal(n)) == n
  {
    if n < 10 {
      assert Decimal(n)[..0] == "";
      assert Parse(Decimal(n)) == DigitValue("0123456789"[n]);
    } else {
      var d := Decimal(n / 10);
      ParseInvertsDecimal(n / 10);
      assert (d + ["0123456789"[n % 10]])[..|d|] == d;
    }
  }

  lemma {:induction false} DecimalLength(n: nat, k: nat)
    requires k > 0 && n < Power10(k) && (k > 1 ==> Power10(k - 1) <= n)
    ensures |Decimal(n)| == k
  {
    if k == 1 {
      assert Power10(0) == 1;
    } else {
      assert Power10(k) == 10 * Power10(k - 1) && Power10(k - 1) == 10 * Power10(k - 2) && Power10(k - 2) >= 1;
      DecimalLength(n / 10, k - 1);
    }
  }

  predicate IsTenDigits(s: string) {
    |s| == 10 && forall i :: 0 <= i < 10 ==> '0' <= s[i] <= '9'
  }

  lemma {:induction false} DecimalIsDigits(n: nat)
    ensures forall i :: 0 <= i < |Decimal(n)| ==> '0' <= Decimal(n)[i] <= '9'
  {
    if n >= 10 {
      DecimalIsDigits(n / 10);
    }
  }

  // What the random source yields.
  type Draw = r: real | 0.0 <= r < 1.0

  // floor(10^9 + r * 9 * 10^9)
  function DrawnNumber(r: Draw): (n: nat)
    ensures 1_000_000_000 <= n < 10_000_000_000
  {
    (1000000000.0 + r * 9000000000.0).Floor
  }

  lemma TenDigits(n: nat)
    requires 1_000_000_000 <= n < 10_000_000_000
    ensures IsTenDigits(Decimal(n))
  {
    assert Power10(9) == 1_000_000_000 && Power10(10) == 10_000_000_000 by {
      assert Power10(3) == 1000;
      assert Power10(6) == 1000000;
    }
    DecimalLength(n, 10);
    DecimalIsDigits(n);
  }

  // One draw of the retry loop.
  function NumberFrom(r: Draw): (number: string)
    ensures IsTenDigits(number)
  {
    TenDigits(DrawnNumber(r));
    Decimal(DrawnNumber(r))
  }

  predicate Unused(accounts: seq<Account>, number: string) {
    AccountByNumber(accounts, number).None?
  }

  // The number the retry loop settles on, given what the random source yields.
  function FirstUnused(accounts: seq<Account>, draws: seq<Draw>): (r: Option<string>)
    ensures r.Some? ==> Unused(accounts, r.value) && IsTenDigits(r.value)
    ensures r.Some? <==> exists d :: d in draws && Unused(accounts, NumberFrom(d))
  {
    if draws == [] then None
    else if Unused(accounts, NumberFrom(draws[0])) then
      assert draws[0] in draws;
      Some(NumberFrom(draws[0]))
    else
      assert forall d :: d in draws <==> d == draws[0] || d in draws[1..];
      FirstUnused(accounts, draws[1..])
  }

  function Range(lo: int, hi: int): (s: set<int>)
    requires lo <= hi
    ensures |s| == hi - lo && forall n :: n in s <==> lo <= n < hi
    decreases hi - lo
  {
    if lo == hi then {} else Range(lo, hi - 1) + {hi - 1}
  }

  function Values(accounts: seq<Account>): (s: set<int>)
    ensures |s| <= |accounts|
    ensures forall i :: 0 <= i < |accounts| ==> Parse(accounts[i].number) in s
  {
    if accounts == [] then {} else Values(accounts[..|accounts| - 1]) + {Parse(accounts[|accounts| - 1].number)}
  }

  lemma SubsetSize<T>(s: set<T>, t: set<T>)
    ensures s <= t ==> |s| <= |t|
  {
    if s <= t {
      assert |t| == |s| + |t - s|;
    }
  }

  // A larger set has an element that a smaller one lacks.
  lemma Outside<T>(s: set<T>, t: set<T>) returns (x: T)
    requires |s| > |t|
    ensures x in s && x !in t
  {
    SubsetSize(s, t);
    assert !forall y :: y in s ==> y in t;
    x :| x in s && x !in t;
  }

  // Every 10-digit number is drawn.
  lemma NumberIsDrawn(n: int)
    requires 1_000_000_000 <= n < 10_000_000_000
    ensures exists r: Draw :: DrawnNumber(r) == n
  {
    var r: Draw := (n - 1_000_000_000) as real / 9000000000.0;
    assert 1000000000.0 + r * 9000000000.0 == n as real;
    assert DrawnNumber(r) == n;
  }

  /** While fewer than 9 * 10^9 accounts exist, some draw ends the retry loop. */
  lemma UnusedNumberExists(accounts: seq<Account>)
    requires |accounts| < 9_000_000_000
    ensures exists r: Draw :: Unused(accounts, NumberFrom(r))
  {
    var range, values := Range(1_000_000_000, 10_000_000_000), Values(accounts);
    var n := Outside(range, values);
    ParseInvertsDecimal(n);
    assert Unused(accounts, Decimal(n));
    NumberIsDrawn(n);
    var r: Draw :| DrawnNumber(r) == n;
    assert NumberFrom(r) == Decimal(n);
  }

  /** The primary account */

  predicate HasAccount(accounts: seq<Account>, userId: nat) {
    exists i :: 0 <= i < |accounts| && accounts[i].userId == userId
  }

  function Primaries(accounts: seq<Account>, userId: nat): set<nat> {
    set i: nat | i < |accounts| && accounts[i].userId == userId && accounts[i].isPrimary
  }

  // UPDATE accounts SET is_primary = false WHERE user_id = userId AND is_primary
  function ClearPrimary(accounts: seq<Account>, userId: nat): (r: seq<Account>)
    ensures |r| == |accounts|
  {
    seq(|accounts|, i requires 0 <= i < |accounts| =>
      if accounts[i].userId == userId && accounts[i].isPrimary
      then accounts[i].(isPrimary := false)
      else accounts[i])
  }

  function Created(accounts: seq<Account>, userId: nat, number: string, name: string, currency: Currency,
                   wantPrimary: bool): seq<Account>
  {
    var account := Account(userId, number, name, false, currency, 0);
    if !HasAccount(accounts, userId) then accounts + [account.(isPrimary := true)]
    else if wantPrimary then ClearPrimary(accounts, userId) + [account.(isPrimary := true)]
    else accounts + [account]
  }

  function Updated(accounts: seq<Account>, id: nat, userId: nat, name: Option<string>,
                   primary: Option<bool>): Result<seq<Account>>
  {
    if id >= |accounts| || accounts[id].userId != userId then Err(NotFound)
    else
      var account := if name.Some? then accounts[id].(name := name.value) else accounts[id];
      if primary == Some(true) && !account.isPrimary then
        Ok(ClearPrimary(accounts, userId)[id := account.(isPrimary := true)])
      else if primary == Some(false) && account.isPrimary then
        if |Primaries(accounts, userId)| <= 1 then Err(Internal)
        else Ok(accounts[id := account.(isPrimary := false)])
      else Ok(accounts[id := account])
  }

  // The fields an edit of the account table must leave alone.
  ghost predicate SameMoney(a: seq<Account>, b: seq<Account>) {
    |a| == |b| &&
    forall i :: 0 <= i < |a| ==>
      a[i].balance == b[i].balance && a[i].userId == b[i].userId && a[i].number == b[i].number &&
      a[i].currency == b[i].currency
  }

  lemma CreatedMoney(accounts: seq<Account>, userId: nat, number: string, name: string, currency: Currency,
                     wantPrimary: bool)
    ensures var r := Created(accounts, userId, number, name, currency, wantPrimary);
            |r| == |accounts| + 1 && SameMoney(accounts, r[..|accounts|]) && r[|accounts|].balance == 0 &&
            r[|accounts|].userId == userId && r[|accounts|].number == number
  {}

  lemma UpdatedMoney(accounts: seq<Account>, id: nat, userId: nat, name: Option<string>, primary: Option<bool>)
    ensures var r := Updated(accounts, id, userId, name, primary); r.Ok? ==> SameMoney(accounts, r.value)
  {}

  lemma {:induction false} SameMoneyTotal(a: seq<Account>, b: seq<Account>)
    requires SameMoney(a, b)
    ensures Total(a) == Total(b)
  {
    if a != [] {
      SameMoneyTotal(a[1..], b[1..]);
    }
  }

  /** The invariant of the account table, over every run of account requests */

  ghost predicate Sound(accounts: seq<Account>) {
    && (forall i :: 0 <= i < |accounts| ==> IsTenDigits(accounts[i].number))
    && (forall i, j :: 0 <= i < j < |accounts| ==> accounts[i].number != accounts[j].number)
    && (forall u: nat :: HasAccount(accounts, u) ==> |Primaries(accounts, u)| == 1)
  }

  datatype AccountRequest =
    | Create(userId: nat, name: string, currency: Currency, wantPrimary: bool, draws: seq<Draw>)
    | Update(id: nat, userId: nat, newName: Option<string>, primary: Option<bool>)

  // The table after one account request; a failing request rolls back.
  function Handle(accounts: seq<Account>, q: AccountRequest): seq<Account>
  {
    match q
    case Create(userId, name, currency, wantPrimary, draws) =>
      (match FirstUnused(accounts, draws)
       case None => accounts
       case Some(number) => Created(accounts, userId, number, name, currency, wantPrimary))
    case Update(id, userId, newName, primary) =>
      (match Updated(accounts, id, userId, newName, primary)
       case Ok(value) => value
       case Err(_) => accounts)
  }

  function HandleAll(accounts: seq<Account>, qs: seq<AccountRequest>): seq<Account>
    decreases qs
  {
    if qs == [] then accounts else HandleAll(Handle(accounts, qs[0]), qs[1..])
  }

  lemma CreatedPrimaries(accounts: seq<Account>, userId: nat, number: string, name: string, currency: Currency,
                         wantPrimary: bool, u: nat)
    requires HasAccount(accounts, u) ==> |Primaries(accounts, u)| == 1
    ensures var r := Created(accounts, userId, number, name, currency, wantPrimary);
            HasAccount(r, u) ==> |Primaries(r, u)| == 1
  {
    var r := Created(accounts, userId, number, name, currency, wantPrimary);
    if u == userId {
      if !HasAccount(accounts, u) || wantPrimary {
        assert Primaries(r, u) == {|accounts|};
      } else {
        assert Primaries(r, u) == Primaries(accounts, u);
      }
    } else if HasAccount(r, u) {
      assert Primaries(r, u) == Primaries(accounts, u);
      var i :| 0 <= i < |r| && r[i].userId == u;
      assert accounts[i].userId == u;
    }
  }

  lemma CreatedIsSound(accounts: seq<Account>, userId: nat, number: string, name: string, currency: Currency,
                       wantPrimary: bool)
    requires Sound(accounts) && IsTenDigits(number) && Unused(accounts, number)
    ensures Sound(Created(accounts, userId, number, name, currency, wantPrimary))
  {
    var r := Created(accounts, userId, number, name, currency, wantPrimary);
    CreatedMoney(accounts, userId, number, name, currency, wantPrimary);
    forall i | 0 <= i < |accounts|
      ensures r[i].number == accounts[i].number
    {
      assert r[..|accounts|][i] == r[i];
    }
    forall u: nat {
      CreatedPrimaries(accounts, userId, number, name, currency, wantPrimary, u);
    }
  }

  // Making one of the user's accounts the primary one.
  lemma PromotedPrimaries(accounts: seq<Account>, id: nat, account: Account, u: nat)
    requires id < |accounts| && accounts[id].userId == account.userId && account.isPrimary
    ensures var r := ClearPrimary(accounts, account.userId)[id := account];
            Primaries(r, u) == if u == account.userId then {id} else Primaries(accounts, u)
  {}

  lemma UpdatedPrimaries(accounts: seq<Account>, id: nat, userId: nat, name: Option<string>, primary: Option<bool>,
                         u: nat)
    requires Sound(accounts)
    ensures var r := Updated(accounts, id, userId, name, primary);
            r.Ok? && HasAccount(accounts, u) ==> |Primaries(r.value, u)| == 1
  {
    var result := Updated(accounts, id, userId, name, primary);
    if result.Ok? && HasAccount(accounts, u) {
      var account := if name.Some? then accounts[id].(name := name.value) else accounts[id];
      if primary == Some(true) && !account.isPrimary {
        PromotedPrimaries(accounts, id, account.(isPrimary := true), u);
      } else {
        assert HasAccount(accounts, userId);
        assert result.value == accounts[id := account];
        assert Primaries(result.value, u) == Primaries(accounts, u);
      }
    }
  }

  lemma UpdatedIsSound(accounts: seq<Account>, id: nat, userId: nat, name: Option<string>, primary: Option<bool>)
    requires Sound(accounts)
    ensures var r := Updated(accounts, id, userId, name, primary); r.Ok? ==> Sound(r.value)
  {
    var result := Updated(accounts, id, userId, name, primary);
    if result.Ok? {
      UpdatedMoney(accounts, id, userId, name, primary);
      forall u: nat | HasAccount(result.value, u)
        ensures |Primaries(result.value, u)| == 1
      {
        assert HasAccount(accounts, u);
        UpdatedPrimaries(accounts, id, userId, name, primary, u);
      }
    }
  }

  /**
   After any run of account requests, every user who has an account has exactly one primary
   account, and account numbers are distinct 10-digit strings.
   */
  lemma {:induction false} RunsAreSound(accounts: seq<Account>, qs: seq<AccountRequest>)
    requires Sound(accounts)
    ensures Sound(HandleAll(accounts, qs))
    decreases qs
  {
    if qs != [] {
      match qs[0] {
        case Create(userId, name, currency, wantPrimary, draws) =>
          var number := FirstUnused(accounts, draws);
          if number.Some? {
            CreatedIsSound(accounts, userId, number.value, name, currency, wantPrimary);
          }
        case Update(id, userId, newName, primary) =>
          UpdatedIsSound(accounts, id, userId, newName, primary);
      }
      RunsAreSound(Handle(accounts, qs[0]), qs[1..]);
    }
  }

  lemma {:induction false} RunsKeepTotal(accounts: seq<Account>, qs: seq<AccountRequest>)
    ensures Total(HandleAll(accounts, qs)) == Total(accounts)
    decreases qs
  {
    if qs != [] {
      HandleKeepsTotal(accounts, qs[0]);
      RunsKeepTotal(Handle(accounts, qs[0]), qs[1..]);
    }
  }

  lemma HandleKeepsTotal(accounts: seq<Account>, q: AccountRequest)
    ensures Total(Handle(accounts, q)) == Total(accounts)
  {
    var r := Handle(accounts, q);
    match q {
      case Create(userId, name, currency, wantPrimary, draws) =>
        var number := FirstUnused(accounts, draws);
        if number.Some? {
          CreatedMoney(accounts, userId, number.value, name, currency, wantPrimary);
          var n := |accounts|;
          assert r == r[..n] + [r[n]];
          SumAppend(Balance, r[..n], r[n]);
          SameMoneyTotal(accounts, r[..n]);
        }
      case Update(id, userId, newName, primary) =>
        UpdatedMoney(accounts, id, userId, newName, primary);
        SameMoneyTotal(accounts, r);
    }
  }

  /** What each request does, account by account */

  // The digits of the number drawn: floor(10^9 + r * 9 * 10^9).
  lemma NumberIsFloor(r: Draw)
    ensures var n := Parse(NumberFrom(r)); n as real <= 1000000000.0 + r * 9000000000.0 < n as real + 1.0
  {
    ParseInvertsDecimal(DrawnNumber(r));
  }

  lemma {:induction false} FirstUnusedDraw(accounts: seq<Account>, draws: seq<Draw>) returns (k: nat)
    requires FirstUnused(accounts, draws).Some?
    ensures k < |draws| && FirstUnused(accounts, draws) == Some(NumberFrom(draws[k]))
    ensures forall i :: 0 <= i < k ==> !Unused(accounts, NumberFrom(draws[i]))
  {
    if Unused(accounts, NumberFrom(draws[0])) {
      k := 0;
    } else {
      var later := FirstUnusedDraw(accounts, draws[1..]);
      k := later + 1;
      forall i | 0 <= i < k
        ensures !Unused(accounts, NumberFrom(draws[i]))
      {
        assert i > 0 ==> draws[i] == draws[1..][i - 1];
      }
    }
  }

  // No account has this number.
  predicate NumberFree(accounts: seq<Account>, number: string) {
    forall i :: 0 <= i < |accounts| ==> accounts[i].number != number
  }

  // A user's first account is primary, and so is one for which that was asked.
  predicate BecomesPrimary(accounts: seq<Account>, userId: nat, wantPrimary: bool) {
    wantPrimary || forall i :: 0 <= i < |accounts| ==> accounts[i].userId != userId
  }

  lemma CreatedFields(accounts: seq<Account>, userId: nat, number: string, name: string, currency: Currency,
                      wantPrimary: bool)
    ensures var r := Created(accounts, userId, number, name, currency, wantPrimary);
            && |r| == |accounts| + 1
            && r[|accounts|] ==
               Account(userId, number, name, BecomesPrimary(accounts, userId, wantPrimary), currency, 0)
            && forall i :: 0 <= i < |accounts| ==>
                 r[i] == accounts[i].(isPrimary :=
                   accounts[i].isPrimary && !(wantPrimary && accounts[i].userId == userId))
  {}

  /**
   A creation adds exactly one account, with the requested owner, name, currency and an empty balance, under
   the first number drawn that no account has. It is primary if that was asked for or it is the user's first;
   if it was asked for, the user's other accounts lose the flag. No other field of any account changes.
   */
  lemma CreationIsAsAsked(accounts: seq<Account>, userId: nat, name: string, currency: Currency, wantPrimary: bool,
                          draws: seq<Draw>) returns (k: nat)
    requires exists i :: 0 <= i < |draws| && NumberFree(accounts, NumberFrom(draws[i]))
    ensures k < |draws| && NumberFree(accounts, NumberFrom(draws[k]))
    ensures forall i :: 0 <= i < k ==> !NumberFree(accounts, NumberFrom(draws[i]))
    ensures var r := Handle(accounts, Create(userId, name, currency, wantPrimary, draws));
            && |r| == |accounts| + 1
            && r[|accounts|] == Account(userId, NumberFrom(draws[k]), name,
                                        BecomesPrimary(accounts, userId, wantPrimary), currency, 0)
            && forall i :: 0 <= i < |accounts| ==>
                 r[i] == accounts[i].(isPrimary :=
                   accounts[i].isPrimary && !(wantPrimary && accounts[i].userId == userId))
  {
    var any :| 0 <= any < |draws| && NumberFree(accounts, NumberFrom(draws[any]));
    assert draws[any] in draws && Unused(accounts, NumberFrom(draws[any]));
    k := FirstUnusedDraw(accounts, draws);
    FreeIsUnused(accounts, NumberFrom(draws[k]));
    forall i | 0 <= i < k
      ensures !NumberFree(accounts, NumberFrom(draws[i]))
    {
      FreeIsUnused(accounts, NumberFrom(draws[i]));
    }
    CreatedFields(accounts, userId, NumberFrom(draws[k]), name, currency, wantPrimary);
  }

  lemma FreeIsUnused(accounts: seq<Account>, number: string)
    ensures NumberFree(accounts, number) <==> Unused(accounts, number)
  {}

  // The account is primary and no other account of the user is.
  predicate OnlyPrimary(accounts: seq<Account>, userId: nat, id: nat) {
    id < |accounts| && accounts[id].isPrimary &&
    forall i :: 0 <= i < |accounts| && accounts[i].userId == userId && accounts[i].isPrimary ==> i == id
  }

  lemma OnlyPrimaryCounts(accounts: seq<Account>, userId: nat, id: nat)
    requires id < |accounts| && accounts[id].userId == userId && accounts[id].isPrimary
    ensures OnlyPrimary(accounts, userId, id) <==> |Primaries(accounts, userId)| <= 1
  {
    var p := Primaries(accounts, userId);
    assert id in p && |p - {id}| == |p| - 1;
    if OnlyPrimary(accounts, userId, id) {
      assert p == {id};
    } else {
      var other: nat :|
        other < |accounts| && accounts[other].userId == userId && accounts[other].isPrimary && other != id;
      assert other in p - {id};
    }
  }

  /**
   An edit is refused as not found unless the account is the user's, and refused as an error exactly when it
   would take the flag from the user's only primary account. Otherwise the account gets the name and the flag
   asked for; making it primary takes the flag from the user's others; nothing else changes.
   */
  lemma EditIsAsAsked(accounts: seq<Account>, id: nat, userId: nat, name: Option<string>, primary: Option<bool>)
    ensures var r := Updated(accounts, id, userId, name, primary);
            var owned := id < |accounts| && accounts[id].userId == userId;
            && (r == Err(NotFound) <==> !owned)
            && (r == Err(Internal) <==> (owned && primary == Some(false) && OnlyPrimary(accounts, userId, id)))
            && (r.Ok? ==>
                  |r.value| == |accounts| &&
                  r.value[id] == accounts[id].(name := if name.Some? then name.value else accounts[id].name,
                                               isPrimary := if primary.Some? then primary.value
                                                            else accounts[id].isPrimary) &&
                  forall i :: 0 <= i < |accounts| && i != id ==>
                    r.value[i] == accounts[i].(isPrimary := accounts[i].isPrimary &&
                      !(primary == Some(true) && !accounts[id].isPrimary && accounts[i].userId == userId)))
            && (r.Err? ==> r.error == NotFound || r.error == Internal)
  {
    if id < |accounts| && accounts[id].userId == userId && accounts[id].isPrimary {
      OnlyPrimaryCounts(accounts, userId, id);
    }
  }

  /** The service, updating its table in place */
  class AccountsService {
    var accounts: seq<Account>

    constructor (accounts: seq<Account>)
      ensures this.accounts == accounts
    {
      this.accounts := accounts;
    }

    // `draws` is what the random source yields to this call. None: the loop is still running
    // when the draws are spent.
    method CreateAccount(userId: nat, name: string, currency: Currency, wantPrimary: bool, draws: seq<Draw>)
      returns (r: Option<Account>)
      modifies this
      ensures r.Some? <==> exists d :: d in draws && Unused(old(accounts), NumberFrom(d))
      ensures accounts == Handle(old(accounts), Create(userId, name, currency, wantPrimary, draws))
      ensures r.Some? ==> r.value == accounts[|accounts| - 1] && r.value.userId == userId
    {
      var hadAccount := HasAccount(accounts, userId);
      var accountNumber := "";
      var isUnique := false;
      var i := 0;
      while !isUnique && i < |draws|
        invariant 0 <= i <= |draws|
        invariant !isUnique ==> FirstUnused(accounts, draws) == FirstUnused(accounts, draws[i..])
        invariant isUnique ==> FirstUnused(accounts, draws) == Some(accountNumber)
      {
        accountNumber := NumberFrom(draws[i]);
        var existing := AccountByNumber(accounts, accountNumber);
        if existing.None? {
          isUnique := true;
        }
        assert draws[i..][1..] == draws[i + 1..];
        i := i + 1;
      }
      if !isUnique {
        return None;
      }
      var isPrimary := false;
      if !hadAccount {
        isPrimary := true;
      } else if wantPrimary {
        accounts := ClearPrimary(accounts, userId);
        isPrimary := true;
      }
      var account := Account(userId, accountNumber, name, isPrimary, currency, 0);
      accounts := accounts + [account];
      r := Some(account);
    }

    method UpdateAccount(id: nat, userId: nat, name: Option<string>, primary: Option<bool>)
      returns (r: Result<Account>)
      modifies this
      ensures accounts == Handle(old(accounts), Update(id, userId, name, primary))
      ensures r.Ok? <==> Updated(old(accounts), id, userId, name, primary).Ok?
      ensures r.Ok? ==> r.value == accounts[id]
      ensures r.Err? ==> r.error == Updated(old(accounts), id, userId, name, primary).error
    {
      if id >= |accounts| || accounts[id].userId != userId {
        return Err(NotFound);
      }
      var account := accounts[id];
      if name.Some? {
        account := account.(name := name.value);
      }
      if primary == Some(true) {
        if !account.isPrimary {
          accounts := ClearPrimary(accounts, userId);
          account := account.(isPrimary := true);
        }
      }
      if primary == Some(false) {
        if account.isPrimary {
          var primaryCount := |Primaries(accounts, userId)|;
          if primaryCount <= 1 {
            return Err(Internal);
          }
          account := account.(isPrimary := false);
        }
      }
      accounts := accounts[id := account];
      r := Ok(account);
    }
  }
}
