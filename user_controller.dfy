/** User profiles and per-user swap statistics
    (backend/src/controllers/user.controller.ts). The orders collection is
    passed in as a sequence in store order. */
module UserController {
  import opened Wrappers
  import opened JsValues
  import opened SwapOrderModel
  import Sorting

  // ---------------------------------------------------------------------
  // Profiles

  /** A profile: the address and the optional fields a client may set. */
  datatype User = User(address: string, avatar: Option<string>, banner: Option<string>,
                       username: Option<string>, email: Option<string>, bio: Option<string>)

  /** The fields of an update request other than `address`; `None` is absent. */
  datatype UserUpdate = UserUpdate(avatar: Option<string>, banner: Option<string>,
                                   username: Option<string>, email: Option<string>, bio: Option<string>)

  function Pick(update: Option<string>, current: Option<string>): Option<string> {
    if update.Some? then update else current
  }

  /** The profile after `$set` of the present fields. */
  function Apply(u: User, upd: UserUpdate): (r: User)
    ensures r.address == u.address
    ensures upd.avatar.Some? ==> r.avatar == upd.avatar
    ensures upd.avatar.None? ==> r.avatar == u.avatar
    ensures upd.banner.Some? ==> r.banner == upd.banner
    ensures upd.banner.None? ==> r.banner == u.banner
    ensures upd.username.Some? ==> r.username == upd.username
    ensures upd.username.None? ==> r.username == u.username
    ensures upd.email.Some? ==> r.email == upd.email
    ensures upd.email.None? ==> r.email == u.email
    ensures upd.bio.Some? ==> r.bio == upd.bio
    ensures upd.bio.None? ==> r.bio == u.bio
  {
    User(u.address, Pick(upd.avatar, u.avatar), Pick(upd.banner, u.banner), Pick(upd.username, u.username),
         Pick(upd.email, u.email), Pick(upd.bio, u.bio))
  }

  /** Applying the same update twice is applying it once. */
  lemma ApplyIdempotent(u: User, upd: UserUpdate)
    ensures Apply(Apply(u, upd), upd) == Apply(u, upd)
  {
  }

  /** An update with no fields leaves the profile as it was. */
  lemma EmptyUpdateKeepsUser(u: User)
    ensures Apply(u, UserUpdate(None, None, None, None, None)) == u
  {
  }

  datatype CreateUserResponse = UserExists | UserCreated(user: User)

  class UserStore {
    var users: map<string, User>

    /** Each profile is stored under its own address. */
    ghost predicate Valid()
      reads this
    {
      forall a :: a in users ==> users[a].address == a
    }

    constructor()
      ensures Valid() && users == map[]
    {
      users := map[];
    }

    /** `createUser`: 400 "User already exists" and no insert when the
        address is taken, otherwise the profile is inserted (201). */
    method CreateUser(u: User) returns (r: CreateUserResponse)
      requires Valid()
      modifies this
      ensures Valid()
      ensures u.address in old(users) ==> r == UserExists && users == old(users)
      ensures u.address !in old(users) ==> r == UserCreated(u) && users == old(users)[u.address := u]
    {
      if u.address in users {
        return UserExists;
      }
      users := users[u.address := u];
      return UserCreated(u);
    }

    /** `updateUser`: 404 (`None`) when no profile has the address, otherwise
        that profile alone gets the present fields and is returned. */
    method UpdateUser(address: string, upd: UserUpdate) returns (r: Option<User>)
      requires Valid()
      modifies this
      ensures Valid()
      ensures address !in old(users) ==> r == None && users == old(users)
      ensures address in old(users) ==>
                && r == Some(Apply(old(users)[address], upd))
                && users == old(users)[address := Apply(old(users)[address], upd)]
    {
      if address !in users {
        return None;
      }
      var updated := Apply(users[address], upd);
      users := users[address := updated];
      return Some(updated);
    }
  }

  // ---------------------------------------------------------------------
  // Selecting orders

  /** `Array.prototype.filter`: each element that passes the test occurs as
      often as in the input, and no other element occurs. */
  function Filter<T(!new)>(s: seq<T>, p: T -> bool): (r: seq<T>)
    ensures |r| <= |s|
    ensures forall i :: 0 <= i < |r| ==> p(r[i]) && r[i] in s
    ensures forall i :: 0 <= i < |s| && p(s[i]) ==> s[i] in r
    ensures forall x :: multiset(r)[x] == if p(x) then multiset(s)[x] else 0
    decreases |s|
  {
    if s == [] then []
    else
      var pre, last := s[..|s| - 1], s[|s| - 1];
      assert s == pre + [last];
      Filter(pre, p) + (if p(last) then [last] else [])
  }

  /** The filter of an extended sequence extends the filter, so the
      elements that pass keep their order. */
  lemma FilterAppend<T(!new)>(s: seq<T>, x: T, p: T -> bool)
    ensures Filter(s + [x], p) == Filter(s, p) + (if p(x) then [x] else [])
  {
    assert (s + [x])[..|s|] == s;
  }

  /** `SwapOrder.find({ user: address })`. */
  function UserOrders(orders: seq<SwapOrder>, address: string): seq<SwapOrder> {
    Filter(orders, (o: SwapOrder) => o.user == address)
  }

  predicate IsCompleted(o: SwapOrder) {
    o.status == Completed
  }

  function CompletedOrders(orders: seq<SwapOrder>): seq<SwapOrder> {
    Filter(orders, IsCompleted)
  }

  function CreatedAtKey(o: SwapOrder): Option<real> {
    Some(o.createdAt as real)
  }

  /** `getUserActivity`: the user's orders sorted newest first, at most 10;
      exactly 10 when the user has more. */
  function Activity(orders: seq<SwapOrder>, address: string): (r: seq<SwapOrder>)
    ensures |r| == if |UserOrders(orders, address)| <= 10 then |UserOrders(orders, address)| else 10
  {
    Sorting.Take(Sorting.SortDesc(UserOrders(orders, address), CreatedAtKey), 10)
  }

  /** At most ten orders, each one of the user's own. */
  lemma ActivityIsUsersOrders(orders: seq<SwapOrder>, address: string)
    ensures |Activity(orders, address)| <= 10
    ensures forall o :: o in Activity(orders, address) ==> o in orders && o.user == address
  {
    var mine := UserOrders(orders, address);
    var sorted := Sorting.SortDesc(mine, CreatedAtKey);
    forall o | o in Activity(orders, address)
      ensures o in orders && o.user == address
    {
      assert o in sorted;
      assert o in multiset(mine);
    }
  }

  /** Orders sorted by creation time come newest first. */
  lemma SortedNewestFirst(s: seq<SwapOrder>, i: nat, j: nat)
    requires i < j < |Sorting.SortDesc(s, CreatedAtKey)|
    ensures Sorting.SortDesc(s, CreatedAtKey)[i].createdAt >= Sorting.SortDesc(s, CreatedAtKey)[j].createdAt
  {
    var sorted := Sorting.SortDesc(s, CreatedAtKey);
    Sorting.SortDescIsDescending(s, CreatedAtKey);
    assert !Sorting.Below(CreatedAtKey(sorted[i]), CreatedAtKey(sorted[j]));
  }

  /** The activity is newest first, and the orders left out are no newer
      than any returned. */
  lemma ActivityNewestFirst(orders: seq<SwapOrder>, address: string)
    ensures var r := Activity(orders, address);
      var sorted := Sorting.SortDesc(UserOrders(orders, address), CreatedAtKey);
      && (forall i, j :: 0 <= i < j < |r| ==> r[i].createdAt >= r[j].createdAt)
      && (forall i, j :: 0 <= i < |r| <= j < |sorted| ==> sorted[j].createdAt <= r[i].createdAt)
  {
    var sorted := Sorting.SortDesc(UserOrders(orders, address), CreatedAtKey);
    var r := Activity(orders, address);
    assert r == sorted[..|r|];
    forall i, j | 0 <= i < j < |r|
      ensures r[i].createdAt >= r[j].createdAt
    {
      assert r[i] == sorted[i] && r[j] == sorted[j];
      SortedNewestFirst(UserOrders(orders, address), i, j);
    }
    forall i, j | 0 <= i < |r| <= j < |sorted|
      ensures sorted[j].createdAt <= r[i].createdAt
    {
      assert r[i] == sorted[i];
      if i < j {
        SortedNewestFirst(UserOrders(orders, address), i, j);
      }
    }
  }

  /** The returned orders and the ones left out are together exactly the
      user's orders, so a user with at most ten orders gets all of them. */
  lemma ActivityOmitsOnlyOlder(orders: seq<SwapOrder>, address: string)
    ensures var r := Activity(orders, address);
      var sorted := Sorting.SortDesc(UserOrders(orders, address), CreatedAtKey);
      && multiset(r) + multiset(sorted[|r|..]) == multiset(UserOrders(orders, address))
      && (|UserOrders(orders, address)| <= 10 ==> multiset(r) == multiset(UserOrders(orders, address)))
      && (|UserOrders(orders, address)| > 10 ==> |r| == 10)
  {
    var sorted := Sorting.SortDesc(UserOrders(orders, address), CreatedAtKey);
    var r := Activity(orders, address);
    assert sorted == r + sorted[|r|..];
  }

  // ---------------------------------------------------------------------
  // Statistics

  /** `Math.round(completed / total * 100)`, 0 without orders, computed
      exactly: round half up of `100 * completed / total`. */
  function SuccessRate(completed: nat, total: nat): (r: nat)
    ensures total == 0 ==> r == 0
    ensures total > 0 ==> 2 * total * r <= 200 * completed + total < 2 * total * (r + 1)
  {
    if total == 0 then 0 else (200 * completed + total) / (2 * total)
  }

  /** The rate is a percentage: at most 100 when no more orders completed
      than exist, and exactly 100 when all of them did. */
  lemma SuccessRateIsPercentage(completed: nat, total: nat)
    requires completed <= total
    ensures SuccessRate(completed, total) <= 100
    ensures completed == total && total > 0 ==> SuccessRate(completed, total) == 100
  {
    if total > 0 {
      var r := SuccessRate(completed, total);
      var k := 2 * total;
      assert k * r <= 200 * completed + total;
      assert 200 * completed + total < k * 101;
      MulLessCancels(k, r, 101);
      if completed == total {
        assert k * 100 < 200 * completed + total;
        assert 200 * completed + total < k * (r + 1);
        MulLessCancels(k, 100, r + 1);
      }
    }
  }

  /** The rounded rate lies within one half of the exact percentage. */
  lemma SuccessRateWithinHalf(completed: nat, total: nat)
    requires total > 0
    ensures var x := 100.0 * (completed as real) / (total as real);
      && (SuccessRate(completed, total) as real) - 0.5 <= x
      && x < (SuccessRate(completed, total) as real) + 0.5
  {
    var r := SuccessRate(completed, total);
    var t, c, rr := total as real, completed as real, r as real;
    var p := total * r;
    assert 2 * p <= 200 * completed + total < 2 * p + 2 * total;
    assert p as real == t * rr;
    QuotientBetween(100.0 * c, t, rr - 0.5, rr + 0.5);
  }

  /** `lo <= a / t < hi` follows from `lo * t <= a < hi * t` for positive `t`. */
  lemma QuotientBetween(a: real, t: real, lo: real, hi: real)
    requires t > 0.0 && lo * t <= a < hi * t
    ensures lo <= a / t < hi
  {
    assert a / t * t == a;
    RealScaleCancels(t, lo, a / t);
    RealScaleCancelsStrict(t, a / t, hi);
  }

  lemma MulLessCancels(k: nat, a: nat, b: nat)
    requires k > 0 && k * a < k * b
    ensures a < b
  {
  }

  lemma RealScaleCancels(k: real, a: real, b: real)
    requires k > 0.0 && k * a <= k * b
    ensures a <= b
  {
  }

  lemma RealScaleCancelsStrict(k: real, a: real, b: real)
    requires k > 0.0 && k * a < k * b
    ensures a < b
  {
  }

  /** `createdAt.toISOString().split('T')[0]`: the UTC calendar day, here
      the number of whole days since the epoch (floor division). */
  function Day(createdAt: int): int {
    createdAt / 86400000
  }

  /** The distinct days on which the orders were created. */
  function Days(orders: seq<SwapOrder>): (r: set<int>)
    ensures forall d :: d in r <==> exists i :: 0 <= i < |orders| && Day(orders[i].createdAt) == d
    decreases |orders|
  {
    if orders == [] then {}
    else
      var pre := orders[..|orders| - 1];
      assert forall i :: 0 <= i < |pre| ==> pre[i] == orders[i];
      Days(pre) + {Day(orders[|orders| - 1].createdAt)}
  }

  function ActiveDays(orders: seq<SwapOrder>): nat {
    |Days(orders)|
  }

  /** There are never more active days than orders, and at least one when
      there is an order. */
  lemma {:induction false} ActiveDaysBounded(orders: seq<SwapOrder>)
    ensures ActiveDays(orders) <= |orders|
    ensures |orders| > 0 ==> ActiveDays(orders) >= 1
    decreases |orders|
  {
    if orders != [] {
      var pre := orders[..|orders| - 1];
      ActiveDaysBounded(pre);
      assert Days(orders) == Days(pre) + {Day(orders[|orders| - 1].createdAt)};
      assert Day(orders[|orders| - 1].createdAt) in Days(orders);
    }
  }

  /** Two orders created on the same UTC day count once. */
  lemma SameDayCountsOnce(a: SwapOrder, b: SwapOrder)
    requires Day(a.createdAt) == Day(b.createdAt)
    ensures ActiveDays([a, b]) == 1
  {
    assert Days([a, b]) == {Day(a.createdAt)};
  }

  /** `reduce((sum, swap) => sum + parseFloat(swap.stxAmount), 0)`. */
  function SumStx(orders: seq<SwapOrder>): JsNumber
    decreases |orders|
  {
    if orders == [] then Some(0.0)
    else Add(SumStx(orders[..|orders| - 1]), orders[|orders| - 1].stxAmount)
  }

  /** The volume: the STX amounts of completed orders only, starting from
      0, so a user without a completed order has volume 0. */
  function Volume(orders: seq<SwapOrder>): (r: JsNumber)
    ensures (forall i :: 0 <= i < |orders| ==> !IsCompleted(orders[i])) ==> r == Some(0.0)
  {
    SumStx(CompletedOrders(orders))
  }

  /** A new order moves the volume only when it is completed, and then by
      its STX amount. */
  lemma VolumeCountsCompletedOnly(orders: seq<SwapOrder>, o: SwapOrder)
    ensures o.status != Completed ==> Volume(orders + [o]) == Volume(orders)
    ensures o.status == Completed ==> Volume(orders + [o]) == Add(Volume(orders), o.stxAmount)
  {
    FilterAppend(orders, o, IsCompleted);
    var c := CompletedOrders(orders);
    if o.status == Completed {
      assert CompletedOrders(orders + [o]) == c + [o];
      assert (c + [o])[..|c|] == c;
    } else {
      assert CompletedOrders(orders + [o]) == c + [];
      assert c + [] == c;
    }
  }

  /** A sum of STX amounts is a number exactly when every amount is. */
  lemma {:induction false} SumStxNumeric(orders: seq<SwapOrder>)
    ensures SumStx(orders).Some? <==> forall i :: 0 <= i < |orders| ==> orders[i].stxAmount.Some?
    decreases |orders|
  {
    if orders != [] {
      var pre := orders[..|orders| - 1];
      SumStxNumeric(pre);
      assert forall i :: 0 <= i < |pre| ==> pre[i] == orders[i];
    }
  }

  /** The volume is a number exactly when every completed order's amount is. */
  lemma VolumeNumeric(orders: seq<SwapOrder>)
    ensures Volume(orders).Some? <==>
            forall i :: 0 <= i < |orders| && orders[i].status == Completed ==> orders[i].stxAmount.Some?
  {
    var c := CompletedOrders(orders);
    SumStxNumeric(c);
    if forall i :: 0 <= i < |orders| && orders[i].status == Completed ==> orders[i].stxAmount.Some? {
      forall j | 0 <= j < |c|
        ensures c[j].stxAmount.Some?
      {
        assert IsCompleted(c[j]) && c[j] in orders;
      }
    } else {
      var i :| 0 <= i < |orders| && orders[i].status == Completed && orders[i].stxAmount.None?;
      assert IsCompleted(orders[i]);
      assert orders[i] in c;
    }
  }

  // ---------------------------------------------------------------------
  // Holdings

  /** A JavaScript `Map` from token to amount, in insertion order. */
  type Holdings = seq<(string, JsNumber)>

  function Tokens(h: Holdings): (r: set<string>)
    ensures |r| <= |h|
    decreases |h|
  {
    if h == [] then {}
    else {h[0].0} + Tokens(h[1..])
  }

  /** The keys of the map are exactly its entries' tokens. */
  lemma {:induction false} TokensAreKeys(h: Holdings, t: string)
    ensures t in Tokens(h) <==> exists i :: 0 <= i < |h| && h[i].0 == t
    decreases |h|
  {
    if h != [] {
      TokensAreKeys(h[1..], t);
      assert forall i :: 1 <= i < |h| ==> h[1..][i - 1] == h[i];
    }
  }

  /** No key occurs again further on. */
  predicate DistinctTokens(h: Holdings)
    decreases |h|
  {
    h == [] || (h[0].0 !in Tokens(h[1..]) && DistinctTokens(h[1..]))
  }

  /** `Map.prototype.get`. */
  function Get(h: Holdings, token: string): (r: Option<JsNumber>)
    ensures r.Some? <==> token in Tokens(h)
    decreases |h|
  {
    if h == [] then None
    else if h[0].0 == token then Some(h[0].1)
    else Get(h[1..], token)
  }

  /** `Map.prototype.set`: an existing key keeps its position, a new one
      goes last. */
  function Set(h: Holdings, token: string, v: JsNumber): (r: Holdings)
    ensures |r| == |h| || |r| == |h| + 1
    decreases |h|
  {
    if h == [] then [(token, v)]
    else if h[0].0 == token then [(token, v)] + h[1..]
    else [h[0]] + Set(h[1..], token, v)
  }

  /** After `set`, the key is present with the new value and every other
      key reads as before. */
  lemma {:induction false} SetThenGet(h: Holdings, token: string, v: JsNumber)
    ensures Get(Set(h, token, v), token) == Some(v)
    ensures forall t :: t != token ==> Get(Set(h, token, v), t) == Get(h, t)
    decreases |h|
  {
    if h != [] && h[0].0 != token {
      SetThenGet(h[1..], token, v);
      assert ([h[0]] + Set(h[1..], token, v))[1..] == Set(h[1..], token, v);
    } else if h != [] {
      assert ([(token, v)] + h[1..])[1..] == h[1..];
    }
  }

  /** `set` adds its key. */
  lemma {:induction false} SetTokens(h: Holdings, token: string, v: JsNumber)
    ensures Tokens(Set(h, token, v)) == Tokens(h) + {token}
    decreases |h|
  {
    if h != [] && h[0].0 != token {
      SetTokens(h[1..], token, v);
      assert ([h[0]] + Set(h[1..], token, v))[1..] == Set(h[1..], token, v);
    } else if h != [] {
      assert ([(token, v)] + h[1..])[1..] == h[1..];
    }
  }

  /** `set` keeps the keys distinct. */
  lemma {:induction false} SetKeepsDistinct(h: Holdings, token: string, v: JsNumber)
    requires DistinctTokens(h)
    ensures DistinctTokens(Set(h, token, v))
    decreases |h|
  {
    if h != [] && h[0].0 != token {
      var rest := Set(h[1..], token, v);
      SetKeepsDistinct(h[1..], token, v);
      SetTokens(h[1..], token, v);
      assert ([h[0]] + rest)[1..] == rest;
    } else if h != [] {
      assert ([(token, v)] + h[1..])[1..] == h[1..];
    }
  }

  /** `tokenHoldings.get(token) || 0`: a missing, zero or NaN sum reads 0. */
  function Current(h: Holdings, token: string): real {
    match Get(h, token)
    case Some(Some(x)) => x
    case _ => 0.0
  }

  /** The map after the `forEach` over the completed orders. */
  function GroupHoldings(completed: seq<SwapOrder>): Holdings
    decreases |completed|
  {
    if completed == [] then []
    else
      var h := GroupHoldings(completed[..|completed| - 1]);
      var o := completed[|completed| - 1];
      Set(h, o.destinationToken, Add(Some(Current(h, o.destinationToken)), ParseFloat(o.expectedAmount)))
  }

  /** The loop, updating the map in place. */
  method CollectHoldings(completed: seq<SwapOrder>) returns (h: Holdings)
    ensures h == GroupHoldings(completed)
  {
    h := [];
    for i := 0 to |completed|
      invariant h == GroupHoldings(completed[..i])
    {
      assert completed[..i + 1][..i] == completed[..i];
      var current := match Get(h, completed[i].destinationToken)
        case Some(Some(x)) => x
        case _ => 0.0;
      h := Set(h, completed[i].destinationToken, Add(Some(current), ParseFloat(completed[i].expectedAmount)));
    }
    assert completed[..|completed|] == completed;
  }

  predicate AmountsNumeric(orders: seq<SwapOrder>) {
    forall i :: 0 <= i < |orders| ==> ParseFloat(orders[i].expectedAmount).Some?
  }

  /** Reference definition: the sum of one token's amounts. */
  function TokenTotal(orders: seq<SwapOrder>, token: string): real
    requires AmountsNumeric(orders)
    decreases |orders|
  {
    if orders == [] then 0.0
    else
      var o := orders[|orders| - 1];
      TokenTotal(orders[..|orders| - 1], token)
        + (if o.destinationToken == token then ParseFloat(o.expectedAmount).value else 0.0)
  }

  /** The destination tokens of the orders. */
  function OrderTokens(orders: seq<SwapOrder>): (r: set<string>)
    ensures forall t :: t in r <==> exists i :: 0 <= i < |orders| && orders[i].destinationToken == t
    decreases |orders|
  {
    if orders == [] then {}
    else
      var pre := orders[..|orders| - 1];
      assert forall i :: 0 <= i < |pre| ==> pre[i] == orders[i];
      OrderTokens(pre) + {orders[|orders| - 1].destinationToken}
  }

  /** One entry per token that occurs among the orders, no token twice. */
  lemma {:induction false} HoldingsTokens(orders: seq<SwapOrder>)
    ensures DistinctTokens(GroupHoldings(orders))
    ensures Tokens(GroupHoldings(orders)) == OrderTokens(orders)
    decreases |orders|
  {
    if orders != [] {
      var pre := orders[..|orders| - 1];
      var o := orders[|orders| - 1];
      var h := GroupHoldings(pre);
      HoldingsTokens(pre);
      var v := Add(Some(Current(h, o.destinationToken)), ParseFloat(o.expectedAmount));
      SetTokens(h, o.destinationToken, v);
      SetKeepsDistinct(h, o.destinationToken, v);
    }
  }

  /** One step of the `forEach`: adding a number to a token's entry keeps
      every entry equal to its running total. */
  lemma AddToEntry(h: Holdings, token: string, amount: real, t: string, before: real, after: Holdings, total: real)
    requires Get(h, t) == (if t in Tokens(h) then Some(Some(before)) else None)
    requires t !in Tokens(h) ==> before == 0.0
    requires after == Set(h, token, Add(Some(Current(h, token)), Some(amount)))
    requires total == if t == token then before + amount else before
    ensures Get(after, t) == (if t in Tokens(after) then Some(Some(total)) else None)
    ensures t !in Tokens(after) ==> total == 0.0
  {
    if t == token {
      AddToOwnEntry(h, token, amount, before, after);
    } else {
      var v := Add(Some(Current(h, token)), Some(amount));
      assert Get(after, t) == Get(h, t) by {
        SetThenGet(h, token, v);
      }
      assert t in Tokens(after) <==> t in Tokens(h) by {
        SetTokens(h, token, v);
      }
    }
  }

  /** The entry an order adds to becomes the old running total plus its
      amount. */
  lemma AddToOwnEntry(h: Holdings, token: string, amount: real, before: real, after: Holdings)
    requires Get(h, token) == (if token in Tokens(h) then Some(Some(before)) else None)
    requires token !in Tokens(h) ==> before == 0.0
    requires after == Set(h, token, Add(Some(Current(h, token)), Some(amount)))
    ensures Get(after, token) == Some(Some(before + amount))
  {
    assert Current(h, token) == before by {
      if token in Tokens(h) {
        assert Get(h, token) == Some(Some(before));
      } else {
        assert Get(h, token) == None;
      }
    }
    SetThenGet(h, token, Add(Some(before), Some(amount)));
  }

  /** When every amount parses, a token's entry holds that token's total,
      and a token without an entry totals 0. */
  lemma {:induction false} HoldingsAreTotals(orders: seq<SwapOrder>, t: string)
    requires AmountsNumeric(orders)
    ensures Get(GroupHoldings(orders), t) ==
            (if t in Tokens(GroupHoldings(orders)) then Some(Some(TokenTotal(orders, t))) else None)
    ensures t !in Tokens(GroupHoldings(orders)) ==> TokenTotal(orders, t) == 0.0
    decreases |orders|
  {
    if orders != [] {
      var pre := orders[..|orders| - 1];
      var o := orders[|orders| - 1];
      assert AmountsNumeric(pre) by {
        forall i | 0 <= i < |pre| ensures ParseFloat(pre[i].expectedAmount).Some? {
          assert pre[i] == orders[i];
        }
      }
      var amount := ParseFloat(o.expectedAmount).value;
      assert ParseFloat(o.expectedAmount) == Some(amount);
      var h := GroupHoldings(pre);
      HoldingsAreTotals(pre, t);
      AddToEntry(h, o.destinationToken, amount, t, TokenTotal(pre, t), GroupHoldings(orders), TokenTotal(orders, t));
    }
  }

  /** A NaN running sum is forgotten by the next order for that token:
      `NaN || 0` restarts the sum from 0, so the entry becomes that order's
      own parsed amount. */
  lemma NaNSumRestarts(completed: seq<SwapOrder>, o: SwapOrder)
    requires Get(GroupHoldings(completed), o.destinationToken) == Some(None)
    ensures Get(GroupHoldings(completed + [o]), o.destinationToken) == Some(ParseFloat(o.expectedAmount))
  {
    var h := GroupHoldings(completed);
    assert (completed + [o])[..|completed|] == completed;
    assert Current(h, o.destinationToken) == 0.0;
    SetThenGet(h, o.destinationToken, Add(Some(0.0), ParseFloat(o.expectedAmount)));
  }

  /** An amount that does not parse makes the sum NaN, and the next amount
      for the token, "7", replaces it. */
  lemma NaNSumExample(a: SwapOrder, b: SwapOrder)
    requires a.destinationToken == b.destinationToken
    requires a.expectedAmount == "abc" && b.expectedAmount == "7"
    ensures Get(GroupHoldings([a]), a.destinationToken) == Some(None)
    ensures Get(GroupHoldings([a, b]), a.destinationToken) == Some(Some(7.0))
  {
    ParseFloatDigits("abc");
    ParseFloatDigits("7");
    assert "7"[..0] == [];
    assert [a, b][..1] == [a];
    assert [a][..0] == [];
  }

  function AmountKey(e: (string, JsNumber)): Option<real> {
    e.1
  }

  /** `topHoldings`: the three largest sums, in millions of base units. */
  function TopHoldings(h: Holdings): (r: seq<(string, JsNumber)>)
    ensures |r| == if |h| <= 3 then |h| else 3
  {
    var top := Sorting.Take(Sorting.SortDesc(h, AmountKey), 3);
    seq(|top|, i requires 0 <= i < |top| => (top[i].0, FromMicro(top[i].1)))
  }

  /** Each top holding is one of the holdings, scaled; they come largest
      first; and none of them is smaller than a holding left out. */
  lemma TopHoldingsAreLargest(h: Holdings)
    ensures var sorted := Sorting.SortDesc(h, AmountKey); var r := TopHoldings(h);
      && (forall i :: 0 <= i < |r| ==> sorted[i] in h && r[i] == (sorted[i].0, FromMicro(sorted[i].1)))
      && (forall i, j :: 0 <= i < j < |r| ==> !Sorting.Below(sorted[i].1, sorted[j].1))
      && (forall i, j :: 0 <= i < |r| <= j < |sorted| ==> !Sorting.Below(sorted[i].1, sorted[j].1))
  {
    var sorted := Sorting.SortDesc(h, AmountKey);
    Sorting.SortDescIsDescending(h, AmountKey);
    forall i | 0 <= i < |TopHoldings(h)|
      ensures sorted[i] in h
    {
      assert sorted[i] in multiset(h);
    }
    forall i, j | 0 <= i < j < |sorted|
      ensures !Sorting.Below(sorted[i].1, sorted[j].1)
    {
      assert !Sorting.Below(AmountKey(sorted[i]), AmountKey(sorted[j]));
    }
  }

  datatype UserStats = UserStats(totalSwaps: nat, volume: JsNumber, successRate: nat, activeDays: nat,
                                 topHoldings: seq<(string, JsNumber)>)

  /** `getUserStats` over the orders collection. */
  method GetUserStats(orders: seq<SwapOrder>, address: string) returns (stats: UserStats)
    ensures var mine := UserOrders(orders, address);
      && stats.totalSwaps == |mine|
      && stats.successRate == SuccessRate(|CompletedOrders(mine)|, |mine|)
      && stats.successRate <= 100
      && stats.activeDays == ActiveDays(mine) && stats.activeDays <= stats.totalSwaps
      && stats.volume == Volume(mine)
      && stats.topHoldings == TopHoldings(GroupHoldings(CompletedOrders(mine)))
  {
    var mine := UserOrders(orders, address);
    var completed := CompletedOrders(mine);
    SuccessRateIsPercentage(|completed|, |mine|);
    ActiveDaysBounded(mine);
    var holdings := CollectHoldings(completed);
    stats := UserStats(|mine|, SumStx(completed), SuccessRate(|completed|, |mine|), ActiveDays(mine),
                       TopHoldings(holdings));
  }
}
