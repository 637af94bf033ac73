/** Forwarding messages: one request per run of messages from the same chat, paid from one stars budget. */
module Forward {
  import opened Basics

  datatype Peer = Peer(id: int)

  datatype Item = Item(id: int, from: Peer, savedMusic: bool)

  /** One request: messages of one chat with their random ids, and the stars it pays. */
  datatype Batch = Batch(from: Peer, items: seq<Item>, randomIds: seq<int>, starsPaid: int)

  function Music(items: seq<Item>, music: bool): seq<Item> {
    if items == [] then []
    else (if items[0].savedMusic == music then [items[0]] else []) + Music(items[1..], music)
  }

  // ---------- runs ----------

  function Concat<T>(pieces: seq<seq<T>>): seq<T> {
    if pieces == [] then [] else Concat(pieces[..|pieces| - 1]) + pieces[|pieces| - 1]
  }

  predicate FromOne(piece: seq<Item>, from: Peer) { forall i :: 0 <= i < |piece| ==> piece[i].from == from }

  /** Maximal runs: none is empty, each is from one chat, and neighbours are from different chats. */
  predicate AreRuns(pieces: seq<seq<Item>>) {
    && (forall k :: 0 <= k < |pieces| ==> pieces[k] != [] && FromOne(pieces[k], pieces[k][0].from))
    && (forall k :: 0 < k < |pieces| ==> pieces[k - 1][0].from != pieces[k][0].from)
  }

  lemma Associative<T>(a: seq<T>, b: seq<T>, c: seq<T>)
    ensures (a + b) + c == a + (b + c)
  {
  }

  lemma {:induction false} ConcatFirst<T>(pieces: seq<seq<T>>)
    requires pieces != []
    ensures Concat(pieces) == pieces[0] + Concat(pieces[1..])
    decreases |pieces|
  {
    var n := |pieces| - 1;
    if n == 0 {
      assert pieces[..0] == [] && pieces[1..] == [];
    } else {
      ConcatFirst(pieces[..n]);
      var middle := pieces[1..][..n - 1];
      assert pieces[..n][1..] == middle && pieces[1..][n - 1] == pieces[n];
      assert Concat(pieces[1..]) == Concat(middle) + pieces[n];
      Associative(pieces[0], Concat(middle), pieces[n]);
    }
  }

  lemma FirstRunsAgree(p: seq<seq<Item>>, q: seq<seq<Item>>)
    requires p != [] && q != [] && AreRuns(p) && AreRuns(q) && Concat(p) == Concat(q)
    ensures |p[0]| <= |q[0]|
  {
    ConcatFirst(p);
    ConcatFirst(q);
    var items, n := Concat(p), |q[0]|;
    assert items[0] == p[0][0] && items[0] == q[0][0];
    if n < |p[0]| {
      assert items[n] == p[0][n];
      assert items[n] == Concat(q[1..])[0];
      assert |q| > 1;
      ConcatFirst(q[1..]);
    }
  }

  lemma {:induction false} NoRuns(p: seq<seq<Item>>)
    requires AreRuns(p) && Concat(p) == []
    ensures p == []
  {
    if p != [] {
      ConcatFirst(p);
    }
  }

  /** A list splits into maximal runs in one way only. */
  lemma {:induction false} RunsAreUnique(p: seq<seq<Item>>, q: seq<seq<Item>>)
    requires AreRuns(p) && AreRuns(q) && Concat(p) == Concat(q)
    ensures p == q
    decreases |p|
  {
    if p == [] {
      NoRuns(q);
    } else {
      if q == [] {
        NoRuns(p);
      }
      FirstRunsAgree(p, q);
      FirstRunsAgree(q, p);
      ConcatFirst(p);
      ConcatFirst(q);
      assert p[0] == Concat(p)[..|p[0]|] && q[0] == Concat(q)[..|q[0]|];
      assert Concat(p[1..]) == Concat(p)[|p[0]|..] && Concat(q[1..]) == Concat(q)[|q[0]|..];
      TailIsRuns(p);
      TailIsRuns(q);
      RunsAreUnique(p[1..], q[1..]);
      assert p == [p[0]] + p[1..] && q == [q[0]] + q[1..];
    }
  }

  lemma TailIsRuns(p: seq<seq<Item>>)
    requires AreRuns(p) && p != []
    ensures AreRuns(p[1..])
  {
    assert forall k :: 0 <= k < |p| - 1 ==> p[1..][k] == p[k + 1];
  }

  // ---------- the batches of one forwarding ----------

  function Pieces(batches: seq<Batch>): (r: seq<seq<Item>>)
    ensures |r| == |batches| && forall k :: 0 <= k < |batches| ==> r[k] == batches[k].items
  {
    seq(|batches|, k requires 0 <= k < |batches| => batches[k].items)
  }

  function RandomIds(batches: seq<Batch>): (r: seq<seq<int>>)
    ensures |r| == |batches| && forall k :: 0 <= k < |batches| ==> r[k] == batches[k].randomIds
  {
    seq(|batches|, k requires 0 <= k < |batches| => batches[k].randomIds)
  }

  function TotalPaid(batches: seq<Batch>): int {
    if batches == [] then 0 else TotalPaid(batches[..|batches| - 1]) + batches[|batches| - 1].starsPaid
  }

  function TotalItems(batches: seq<Batch>): nat {
    if batches == [] then 0 else TotalItems(batches[..|batches| - 1]) + |batches[|batches| - 1].items|
  }

  /** What the messages cost, and what it is taken for: the source cuts the product to 32 bits. */
  function FullCost(count: nat, price: int): int { count * price }

  function Cost(count: nat, price: int): int { Wrapped(FullCost(count, price)) }

  /** Each request pays for its messages as far as what the earlier ones left of the approved stars goes. */
  predicate PaysInTurn(batches: seq<Batch>, approved: int, price: int) {
    forall k :: 0 <= k < |batches| ==>
      batches[k].starsPaid == Min(approved - TotalPaid(batches[..k]), Cost(|batches[k].items|, price))
  }

  predicate IsWhole(b: Batch) { |b.randomIds| == |b.items| && b.items != [] && b.from == b.items[0].from }

  ghost predicate Whole(batches: seq<Batch>) {
    forall k :: 0 <= k < |batches| ==> IsWhole(batches[k])
  }

  lemma {:induction false} ItemsCounted(batches: seq<Batch>)
    ensures TotalItems(batches) == |Concat(Pieces(batches))|
    decreases |batches|
  {
    if batches != [] {
      var n := |batches| - 1;
      ItemsCounted(batches[..n]);
      assert Pieces(batches)[..n] == Pieces(batches[..n]);
    }
  }

  /** The prices of the requests, as the source computes them. */
  function Costs(batches: seq<Batch>, price: int): (r: seq<int>)
    ensures |r| == |batches| && forall k :: 0 <= k < |batches| ==> r[k] == Cost(|batches[k].items|, price)
  {
    seq(|batches|, k requires 0 <= k < |batches| => Cost(|batches[k].items|, price))
  }

  function Sum(costs: seq<int>): int {
    if costs == [] then 0 else Sum(costs[..|costs| - 1]) + costs[|costs| - 1]
  }

  lemma FullCostSplits(a: nat, b: nat, price: int)
    ensures FullCost(a + b, price) == FullCost(a, price) + FullCost(b, price)
    ensures price >= 0 ==> FullCost(a, price) >= 0 && FullCost(b, price) >= 0
    ensures FullCost(0, price) == 0 && FullCost(1, price) == price
  {
  }

  /**
   * A request pays for its messages in full, as far as the stars go, exactly when the product fits or is not
   * reached.
   */
  lemma PaysRightExactlyWhen(left: int, count: nat, price: int)
    requires price >= 0
    ensures Min(left, Cost(count, price)) == Min(left, FullCost(count, price)) <==>
      FullCost(count, price) <= INT_MAX || left <= Cost(count, price)
  {
    FullCostSplits(0, count, price);
    WrappedFits(FullCost(count, price));
    hide FullCost, Wrapped;
  }

  lemma EarlierPay(batches: seq<Batch>, approved: int, price: int)
    requires PaysInTurn(batches, approved, price) && batches != []
    ensures var n := |batches| - 1;
      && PaysInTurn(batches[..n], approved, price)
      && batches[n].starsPaid == Min(approved - TotalPaid(batches[..n]), Cost(|batches[n].items|, price))
  {
    hide TotalPaid, Cost;
    var n := |batches| - 1;
    forall k | 0 <= k < n
      ensures batches[..n][k].starsPaid
        == Min(approved - TotalPaid(batches[..n][..k]), Cost(|batches[..n][k].items|, price))
    {
      assert batches[..n][..k] == batches[..k];
    }
  }

  // ---------- what all requests pay together ----------

  /** From any request but the first on, those that remain cost at least this much together. */
  predicate EndsCost(costs: seq<int>, least: int) {
    forall j :: 1 <= j <= |costs| ==> Sum(costs[j..]) >= least
  }

  lemma EndsGrow(costs: seq<int>, last: int, least: int)
    ensures EndsCost(costs + [last], least) <==> EndsCost(costs, least - last) && least <= 0
  {
    var more := costs + [last];
    assert more[|more|..] == [];
    forall j | 1 <= j <= |costs| ensures Sum(more[j..]) == Sum(costs[j..]) + last {
      SumGrows(costs[j..], last);
      assert more[j..] == costs[j..] + [last];
    }
    if EndsCost(more, least) {
      assert Sum(more[|more|..]) >= least;
      forall j | 1 <= j <= |costs| ensures Sum(costs[j..]) >= least - last {
        assert Sum(more[j..]) >= least;
      }
    }
  }

  lemma SumGrows(costs: seq<int>, last: int)
    ensures Sum(costs + [last]) == Sum(costs) + last
  {
    assert (costs + [last])[..|costs|] == costs;
  }

  lemma CostsGrow(batches: seq<Batch>, price: int)
    requires batches != []
    ensures var n := |batches| - 1;
      Costs(batches, price) == Costs(batches[..n], price) + [Cost(|batches[n].items|, price)]
  {
    hide Cost;
  }

  /** How much is paid is the least that is left of the budget at some point and the requests after it take. */
  lemma {:induction false} PaidAtLeast(batches: seq<Batch>, approved: int, price: int, short: int)
    requires PaysInTurn(batches, approved, price)
    ensures TotalPaid(batches) >= approved - short <==>
      Sum(Costs(batches, price)) >= approved - short && EndsCost(Costs(batches, price), -short)
    decreases |batches|
  {
    if batches != [] {
      var n := |batches| - 1;
      var cost := Cost(|batches[n].items|, price);
      EarlierPay(batches, approved, price);
      PaidAtLeast(batches[..n], approved, price, short + cost);
      CostsGrow(batches, price);
      SumGrows(Costs(batches[..n], price), cost);
      EndsGrow(Costs(batches[..n], price), cost, -short);
      hide Cost, EndsCost, PaysInTurn, Sum;
    }
  }

  /** No more is paid than approved, nor than the computed prices come to. */
  lemma PaidAtMost(batches: seq<Batch>, approved: int, price: int)
    requires PaysInTurn(batches, approved, price) && batches != []
    ensures TotalPaid(batches) <= approved && TotalPaid(batches) <= Sum(Costs(batches, price))
  {
    hide PaysInTurn, TotalPaid, Cost;
    PaidAtLeast(batches, approved, price, approved - TotalPaid(batches));
    var costs := Costs(batches, price);
    assert Sum(costs[|costs|..]) == 0;
  }

  /** Each request's own price fits 32 bits. */
  predicate EachFits(batches: seq<Batch>, price: int) {
    forall k :: 0 <= k < |batches| ==> FullCost(|batches[k].items|, price) <= INT_MAX
  }

  lemma {:induction false} SumOfCosts(batches: seq<Batch>, price: int)
    requires price >= 0
    ensures FullCost(TotalItems(batches), price) >= 0
    ensures EachFits(batches, price) ==> Sum(Costs(batches, price)) == FullCost(TotalItems(batches), price)
    ensures !EachFits(batches, price) ==> FullCost(TotalItems(batches), price) > INT_MAX
    decreases |batches|
  {
    hide Wrapped;
    FullCostSplits(0, 0, price);
    if batches != [] {
      var n := |batches| - 1;
      SumOfCosts(batches[..n], price);
      CostsGrow(batches, price);
      SumGrows(Costs(batches[..n], price), Cost(|batches[n].items|, price));
      FullCostSplits(TotalItems(batches[..n]), |batches[n].items|, price);
      WrappedFits(FullCost(|batches[n].items|, price));
      assert EachFits(batches, price) <==>
          EachFits(batches[..n], price) && FullCost(|batches[n].items|, price) <= INT_MAX;
    }
    hide FullCost, EachFits, Sum;
  }

  lemma {:induction false} SumNotNegative(costs: seq<int>)
    requires forall k :: 0 <= k < |costs| ==> costs[k] >= 0
    ensures Sum(costs) >= 0
  {
    if costs != [] {
      SumNotNegative(costs[..|costs| - 1]);
    }
  }

  lemma EndsNotNegative(batches: seq<Batch>, price: int)
    requires EachFits(batches, price) && price >= 0
    ensures EndsCost(Costs(batches, price), 0)
  {
    hide FullCost, Wrapped;
    var costs := Costs(batches, price);
    forall k | 0 <= k < |costs| ensures costs[k] >= 0 {
      FullCostSplits(|batches[k].items|, 0, price);
      WrappedFits(FullCost(|batches[k].items|, price));
    }
    forall j | 1 <= j <= |costs| ensures Sum(costs[j..]) >= 0 {
      SumNotNegative(costs[j..]);
    }
  }

  /** The requests come to the right sum: each price fits, or all that is approved is paid all the same. */
  predicate PaysRight(batches: seq<Batch>, approved: int, price: int) {
    EachFits(batches, price) || (approved <= Sum(Costs(batches, price)) && EndsCost(Costs(batches, price), 0))
  }

  /**
   * In all, the price of all messages is paid, as far as the approved stars go, exactly when each request's own
   * price fits 32 bits, or the computed prices reach the approved stars and those of no end of the requests
   * are negative together.
   */
  lemma PaidInAllExactlyWhen(batches: seq<Batch>, approved: int, price: int)
    requires PaysInTurn(batches, approved, price) && price >= 0 && batches != [] && approved <= INT_MAX
    ensures TotalPaid(batches) == Min(approved, FullCost(TotalItems(batches), price)) <==>
      PaysRight(batches, approved, price)
  {
    hide PaysInTurn, TotalPaid, FullCost, EachFits;
    SumOfCosts(batches, price);
    PaidAtMost(batches, approved, price);
    PaidAtLeast(batches, approved, price, 0);
    if EachFits(batches, price) {
      EndsNotNegative(batches, price);
      PaidAtLeast(batches, approved, price, approved - Min(approved, Sum(Costs(batches, price))));
    }
  }

  /** What is left of the budget fits 32 bits again exactly when no end of the requests takes too much below zero. */
  lemma LeftFitsExactlyWhen(batches: seq<Batch>, approved: int, price: int)
    requires PaysInTurn(batches, approved, price) && batches != []
    ensures var costs, left := Costs(batches, price), approved - TotalPaid(batches);
      0 <= left && (left <= INT_MAX <==> Sum(costs) >= approved - INT_MAX && EndsCost(costs, -INT_MAX))
  {
    hide PaysInTurn, TotalPaid, Cost, Sum;
    PaidAtMost(batches, approved, price);
    PaidAtLeast(batches, approved, price, INT_MAX);
  }

  lemma PaidFromOneRun(batches: seq<Batch>, approved: int, price: int)
    requires PaysInTurn(batches, approved, price) && |batches| == 1
    ensures TotalPaid(batches) == batches[0].starsPaid == Min(approved, Cost(|batches[0].items|, price))
  {
    hide Cost;
    assert batches[..0] == [];
  }

  lemma OneRun(batches: seq<Batch>, items: seq<Item>)
    requires AreRuns(Pieces(batches)) && Concat(Pieces(batches)) == items
    requires items != [] && FromOne(items, items[0].from)
    ensures |batches| == 1 && batches[0].items == items
  {
    var one := [items];
    assert one[..0] == [] && Concat(one) == [] + items && AreRuns(one);
    RunsAreUnique(Pieces(batches), one);
  }

  /** Three messages of one chat, at a thousand million stars each: the one request pays a negative amount. */
  lemma {:induction false} ThreeMessagesPayNegative(batches: seq<Batch>, items: seq<Item>, approved: nat, price: int)
    requires AreRuns(Pieces(batches)) && Concat(Pieces(batches)) == items
    requires |items| == 3 && FromOne(items, items[0].from)
    requires PaysInTurn(batches, approved, price) && price == 1_000_000_000 && approved <= INT_MAX
    ensures |batches| == 1 && batches[0].items == items && batches[0].starsPaid == -1_294_967_296
    ensures TotalPaid(batches) == -1_294_967_296 && Min(approved, FullCost(3, price)) == approved
  {
    hide AreRuns, Concat, Pieces, TotalPaid, PaysInTurn, Cost, FullCost;
    OneRun(batches, items);
    PaidFromOneRun(batches, approved, price);
    ThreeWrap(price);
  }

  lemma ThreeWrap(price: int)
    requires price == 1_000_000_000
    ensures FullCost(3, price) == 3_000_000_000 && Cost(3, price) == -1_294_967_296
  {
    assert 3 * price == 3_000_000_000;
  }

  // ---------- saved music pays from a budget of its own ----------

  /** Each piece of saved music pays from a copy of the approved stars, and the forwards pay from all of them. */
  function MusicPaid(count: nat, approved: int, price: int): int { FullCost(count, Min(price, approved)) }

  /** Both together stay within the approved stars exactly under this condition on the computed prices. */
  lemma BudgetKeptExactlyWhen(count: nat, batches: seq<Batch>, approved: int, price: int)
    requires PaysInTurn(batches, approved, price)
    ensures var costs, music := Costs(batches, price), MusicPaid(count, approved, price);
      music + TotalPaid(batches) <= approved <==>
        music + Sum(costs) <= approved || exists j :: 1 <= j <= |costs| && music + Sum(costs[j..]) <= 0
  {
    hide PaysInTurn, TotalPaid, FullCost, Sum, Cost;
    PaidAtLeast(batches, approved, price, MusicPaid(count, approved, price) - 1);
  }

  lemma PaidWhenEachFits(batches: seq<Batch>, approved: nat, price: nat)
    requires PaysInTurn(batches, approved, price) && EachFits(batches, price) && approved <= INT_MAX
    ensures TotalPaid(batches) == Min(approved, FullCost(TotalItems(batches), price))
  {
    hide PaysInTurn, FullCost, EachFits;
    FullCostSplits(0, 0, price);
    if batches != [] {
      PaidInAllExactlyWhen(batches, approved, price);
    }
  }

  /**
   * In plain numbers, when each request's price fits: exactly when all messages together are within the budget,
   * or are free, or the budget is empty, or there is no music, or the one message is music.
   */
  lemma BudgetKeptInPlainNumbers(count: nat, batches: seq<Batch>, approved: nat, price: nat)
    requires PaysInTurn(batches, approved, price) && EachFits(batches, price) && approved <= INT_MAX
    ensures var n := TotalItems(batches);
      MusicPaid(count, approved, price) + TotalPaid(batches) <= approved <==>
        FullCost(count + n, price) <= approved || price == 0 || approved == 0 || count == 0 || count + n == 1
  {
    hide PaysInTurn, EachFits, TotalPaid, TotalItems;
    PaidWhenEachFits(batches, approved, price);
    var n := TotalItems(batches);
    Multiple(count, price);
    Multiple(n, price);
    Multiple(count, approved);
    FullCostSplits(count, n, price);
    hide FullCost;
  }

  lemma Multiple(count: nat, price: nat)
    ensures FullCost(count, price) >= if count == 0 then 0 else price
    ensures count == 0 || price == 0 ==> FullCost(count, price) == 0
    ensures count == 1 ==> FullCost(count, price) == price
    ensures count > 1 && price > 0 ==> FullCost(count, price) > price
  {
    if count > 0 {
      assert FullCost(count, price) == price + (count - 1) * price;
      if count > 1 && price > 0 {
        assert (count - 1) * price > 0;
      }
    }
  }

  // ---------- the success callback ----------

  /** `SharedCallback`: how many requests are left, and how often the callback ran. */
  datatype Counter = Counter(requestsLeft: int, calls: nat, inflight: set<int>)

  datatype Completion = Done(batch: int) | Failed(batch: int)

  predicate Enabled(c: Counter, e: Completion) { e.batch in c.inflight }

  /** Only success counts down; a failed request leaves the counter as it is. */
  function Complete(c: Counter, e: Completion): Counter {
    var rest := c.inflight - {e.batch};
    if e.Done? then
      Counter(c.requestsLeft - 1, if c.requestsLeft - 1 == 0 then c.calls + 1 else c.calls, rest)
    else c.(inflight := rest)
  }

  ghost predicate IsRun(c: Counter, es: seq<Completion>)
    decreases |es|
  {
    es == [] || (Enabled(c, es[0]) && IsRun(Complete(c, es[0]), es[1..]))
  }

  ghost function After(c: Counter, es: seq<Completion>): Counter
    requires IsRun(c, es)
    decreases |es|
  {
    if es == [] then c else After(Complete(c, es[0]), es[1..])
  }

  function Range(n: nat): (r: set<int>)
    ensures |r| == n && forall i :: i in r <==> 0 <= i < n
  {
    if n == 0 then {} else Range(n - 1) + {n - 1}
  }

  predicate AllDone(es: seq<Completion>) { forall i :: 0 <= i < |es| ==> es[i].Done? }

  /** What is left to complete is enough to bring the counter to zero only if nothing failed. */
  lemma {:induction false} CallsCounted(c: Counter, es: seq<Completion>)
    requires IsRun(c, es) && c.requestsLeft >= |c.inflight|
    ensures var after := After(c, es);
      && |after.inflight| == |c.inflight| - |es|
      && after.calls - c.calls ==
        (if |c.inflight| > 0 && after.inflight == {} && c.requestsLeft == |c.inflight| && AllDone(es) then 1 else 0)
    decreases |es|
  {
    if es != [] {
      var next := Complete(c, es[0]);
      assert |next.inflight| == |c.inflight| - 1;
      CallsCounted(next, es[1..]);
      assert forall i :: 0 < i < |es| ==> es[i] == es[1..][i - 1];
    }
  }

  /**
   * In whatever order the requests of one forwarding complete, the callback runs
   * exactly once when all of them have succeeded, and not at all otherwise.
   */
  lemma CalledOnceExactlyWhenAllSucceed(n: nat, es: seq<Completion>)
    requires n > 0 && IsRun(Counter(n, 0, Range(n)), es)
    ensures var after := After(Counter(n, 0, Range(n)), es);
      after.calls == if |es| == n && AllDone(es) then 1 else 0
  {
    CallsCounted(Counter(n, 0, Range(n)), es);
  }

  class SharedCallback {
    var requestsLeft: int
    var calls: nat
    ghost var inflight: set<int>

    ghost function View(): Counter
      reads this
    {
      Counter(requestsLeft, calls, inflight)
    }

    constructor ()
      ensures View() == Counter(0, 0, {})
    {
      requestsLeft, calls, inflight := 0, 0, {};
    }

    method RequestDone(batch: int)
      requires batch in inflight
      modifies this
      ensures View() == Complete(old(View()), Done(batch))
    {
      inflight := inflight - {batch};
      requestsLeft := requestsLeft - 1;
      if requestsLeft == 0 {
        calls := calls + 1;
      }
    }

    method RequestFailed(batch: int)
      requires batch in inflight
      modifies this
      ensures View() == Complete(old(View()), Failed(batch))
    {
      inflight := inflight - {batch};
    }
  }

  lemma {:induction false} MusicSplits(p: seq<Item>, last: Item, music: bool)
    ensures Music(p + [last], music) == Music(p, music) + (if last.savedMusic == music then [last] else [])
  {
    if p == [] {
      assert p + [last] == [last] && [last][1..] == [];
    } else {
      assert (p + [last])[1..] == p[1..] + [last] && (p + [last])[0] == p[0];
      MusicSplits(p[1..], last, music);
      var head: seq<Item> := if p[0].savedMusic == music then [p[0]] else [];
      assert Music(p, music) == head + Music(p[1..], music);
      assert Music(p + [last], music) == head + Music(p[1..] + [last], music);
    }
  }

  /** Saved music is sent on its own, and leaves the draft. */
  method TakeMusic(items: seq<Item>, starsApproved: int32, price: int32)
    returns (left: seq<Item>, sent: seq<Item>, paid: int)
    ensures left == Music(items, false) && sent == Music(items, true)
    ensures paid == MusicPaid(|sent|, starsApproved, price)
  {
    left, sent, paid := items, [], 0;
    FullCostSplits(0, 0, Min(price, starsApproved));
    var i := 0;
    ghost var k := 0;
    while i < |left|
      invariant 0 <= i <= |left| && 0 <= k <= |items| && left[i..] == items[k..]
      invariant left[..i] == Music(items[..k], false) && sent == Music(items[..k], true)
      invariant paid == MusicPaid(|sent|, starsApproved, price)
      decreases |left| - i
    {
      var item := left[i];
      assert item == left[i..][0] && items[k] == items[k..][0];
      assert items[..k + 1] == items[..k] + [items[k]] && items[k + 1..] == items[k..][1..];
      assert left[i + 1..] == left[i..][1..];
      MusicSplits(items[..k], items[k], false);
      MusicSplits(items[..k], items[k], true);
      hide Music, FullCost;
      if item.savedMusic {
        FullCostSplits(|sent|, 1, Min(price, starsApproved));
        sent := sent + [item];
        paid := paid + Min(price, starsApproved);
        ghost var was := left;
        left := left[..i] + left[i + 1..];
        assert left[..i] == was[..i] && left[i..] == was[i + 1..];
      } else {
        assert left[..i + 1] == left[..i] + [item];
        i := i + 1;
      }
      k := k + 1;
    }
    assert left[..i] == left && items[..k] == items;
  }

  /** What is accumulated so far: runs that are sent, and one more that is not. */
  ghost predicate Accumulated(
    batches: seq<Batch>, forwardFrom: Peer, ids: seq<Item>, randomIds: seq<int>, done: seq<Item>, randoms: seq<int>) {
    && Whole(batches) && AreRuns(Pieces(batches)) && FromOne(ids, forwardFrom) && |ids| == |randomIds|
    && Concat(Pieces(batches)) + ids == done
    && Concat(RandomIds(batches)) + randomIds == randoms
    && (ids == [] ==> batches == [] && (done == []))
    && (batches != [] ==> batches[|batches| - 1].from != forwardFrom)
  }

  /** `sendAccumulated`. */
  method SendAccumulated(
    batches: seq<Batch>, forwardFrom: Peer, ids: seq<Item>, randomIds: seq<int>, starsApproved: int, price: int,
    shared: SharedCallback?)
    returns (more: seq<Batch>, left: int)
    requires shared != null ==>
      shared.requestsLeft == |batches| && shared.calls == 0 && shared.inflight == Range(|batches|)
    modifies shared
    ensures more == batches + [Batch(forwardFrom, ids, randomIds, starsApproved - left)]
    ensures left == starsApproved - Min(starsApproved, Cost(|ids|, price))
    ensures shared != null ==> shared.requestsLeft == |more| && shared.calls == 0 && shared.inflight == Range(|more|)
  {
    if shared != null {
      shared.requestsLeft := shared.requestsLeft + 1;
      shared.inflight := shared.inflight + {|batches|};
    }
    var starsPaid := Min(starsApproved, Wrapped(|ids| * price));
    left := starsApproved;
    if starsPaid != 0 {
      left := left - starsPaid;
    }
    more := batches + [Batch(forwardFrom, ids, randomIds, starsPaid)];
  }

  lemma SentKeeps(
    batches: seq<Batch>, forwardFrom: Peer, ids: seq<Item>, randomIds: seq<int>, done: seq<Item>, randoms: seq<int>,
    paid: int)
    requires Accumulated(batches, forwardFrom, ids, randomIds, done, randoms) && ids != []
    ensures var more := batches + [Batch(forwardFrom, ids, randomIds, paid)];
      && Whole(more) && AreRuns(Pieces(more)) && Concat(Pieces(more)) == done && Concat(RandomIds(more)) == randoms
  {
    var last := Batch(forwardFrom, ids, randomIds, paid);
    PiecesGrow(batches, last);
    OneMoreRun(batches, last);
    hide AreRuns, Whole, Pieces, RandomIds, Concat;
  }

  lemma PiecesGrow(batches: seq<Batch>, last: Batch)
    ensures Concat(Pieces(batches + [last])) == Concat(Pieces(batches)) + last.items
    ensures Concat(RandomIds(batches + [last])) == Concat(RandomIds(batches)) + last.randomIds
  {
    var more := batches + [last];
    assert Pieces(more) == Pieces(batches) + [last.items] && RandomIds(more) == RandomIds(batches) + [last.randomIds];
    assert Pieces(more)[..|batches|] == Pieces(batches) && RandomIds(more)[..|batches|] == RandomIds(batches);
  }

  lemma OneMoreRun(batches: seq<Batch>, last: Batch)
    requires Whole(batches) && AreRuns(Pieces(batches)) && FromOne(last.items, last.from) && last.items != []
    requires |last.items| == |last.randomIds| && (batches != [] ==> batches[|batches| - 1].from != last.from)
    ensures Whole(batches + [last]) && AreRuns(Pieces(batches + [last]))
  {
    var more, n := batches + [last], |batches|;
    assert forall k :: 0 <= k < n ==> Pieces(more)[k] == Pieces(batches)[k];
    assert Pieces(more)[n] == last.items;
  }

  lemma PaidKeeps(batches: seq<Batch>, last: Batch, approved: int, price: int)
    requires PaysInTurn(batches, approved, price)
    requires last.starsPaid == Min(approved - TotalPaid(batches), Cost(|last.items|, price))
    ensures PaysInTurn(batches + [last], approved, price)
    ensures TotalPaid(batches + [last]) == TotalPaid(batches) + last.starsPaid
  {
    var more := batches + [last];
    assert more[..|batches|] == batches;
    forall k | 0 <= k < |more|
      ensures more[k].starsPaid == Min(approved - TotalPaid(more[..k]), Cost(|more[k].items|, price))
    {
      if k < |batches| {
        assert more[..k] == batches[..k];
      }
    }
  }

  /** The budget, and the shared counter, after some requests. */
  ghost predicate Accounted(batches: seq<Batch>, approved: int, price: int, left: int, shared: SharedCallback?)
    reads shared
  {
    && PaysInTurn(batches, approved, price) && left == approved - TotalPaid(batches)
    && (shared != null ==> shared.View() == Counter(|batches|, 0, Range(|batches|)))
  }

  method SendRun(
    batches: seq<Batch>, forwardFrom: Peer, ids: seq<Item>, randomIds: seq<int>, starsApproved: int, price: int,
    shared: SharedCallback?, ghost approved: int, ghost done: seq<Item>, ghost randoms: seq<int>)
    returns (more: seq<Batch>, left: int)
    requires Accumulated(batches, forwardFrom, ids, randomIds, done, randoms) && ids != []
    requires Accounted(batches, approved, price, starsApproved, shared)
    modifies shared
    ensures Accounted(more, approved, price, left, shared) && |more| == |batches| + 1
    ensures Whole(more) && AreRuns(Pieces(more)) && Concat(Pieces(more)) == done && Concat(RandomIds(more)) == randoms
    ensures more[|batches|].from == forwardFrom
  {
    hide Whole, AreRuns, PaysInTurn, TotalPaid, Accumulated;
    more, left := SendAccumulated(batches, forwardFrom, ids, randomIds, starsApproved, price, shared);
    PaidKeeps(batches, more[|batches|], approved, price);
    SentKeeps(batches, forwardFrom, ids, randomIds, done, randoms, more[|batches|].starsPaid);
  }

  /** One turn of the loop over the messages. */
  method AddItem(
    batches: seq<Batch>, from: Peer, ids: seq<Item>, randomIds: seq<int>, item: Item, randomId: int,
    starsApproved: int, price: int, shared: SharedCallback?,
    ghost approved: int, ghost done: seq<Item>, ghost randoms: seq<int>)
    returns (more: seq<Batch>, forwardFrom: Peer, ids': seq<Item>, randomIds': seq<int>, left: int)
    requires Accumulated(batches, from, ids, randomIds, done, randoms) && (ids == [] ==> item.from == from)
    requires Accounted(batches, approved, price, starsApproved, shared)
    modifies shared
    ensures Accumulated(more, forwardFrom, ids', randomIds', done + [item], randoms + [randomId]) && ids' != []
    ensures Accounted(more, approved, price, left, shared)
  {
    hide Whole, AreRuns, Accumulated, Accounted;
    more, forwardFrom, ids', randomIds', left := batches, from, ids, randomIds, starsApproved;
    var newFrom := item.from;
    if forwardFrom != newFrom {
      more, left := SendRun(batches, from, ids, randomIds, starsApproved, price, shared, approved, done, randoms);
      ids', randomIds' := [], [];
      forwardFrom := newFrom;
      LastFrom(more);
      PushFirst(more, forwardFrom, item, randomId, done, randoms);
      assert ids' + [item] == [item] && randomIds' + [randomId] == [randomId];
    } else {
      PushMore(batches, from, ids, randomIds, item, randomId, done, randoms);
    }
    ids' := ids' + [item];
    randomIds' := randomIds' + [randomId];
  }

  method ForwardMessages(
    items: seq<Item>, randoms: seq<int>, starsApproved: int32, price: int32, shared: SharedCallback?)
    returns (sent: seq<Item>, musicPaid: int, batches: seq<Batch>, approvedLeft: int)
    requires items != [] && |randoms| == |Music(items, false)| && price >= 0
    requires shared != null ==> shared.View() == Counter(0, 0, {})
    modifies shared
    ensures sent == Music(items, true) && musicPaid == MusicPaid(|sent|, starsApproved, price)
    ensures Whole(batches) && AreRuns(Pieces(batches)) && Concat(Pieces(batches)) == Music(items, false)
    ensures Concat(RandomIds(batches)) == randoms
    ensures PaysInTurn(batches, starsApproved, price) && approvedLeft == starsApproved - TotalPaid(batches)
    ensures batches != [] ==>
      (TotalPaid(batches) == Min(starsApproved, FullCost(|Music(items, false)|, price)) <==>
        PaysRight(batches, starsApproved, price))
    ensures shared != null ==> shared.View() == Counter(|batches|, if batches == [] then 1 else 0, Range(|batches|))
  {
    hide Music, Whole, AreRuns, PaysInTurn, PaysRight, TotalPaid, Accumulated, MusicPaid, Cost, FullCost;
    hide Concat, Pieces, RandomIds, Range;
    var left;
    left, sent, musicPaid := TakeMusic(items, starsApproved, price);
    batches, approvedLeft := [], starsApproved;
    NothingAccumulated(starsApproved, price);
    if left == [] {
      if shared != null {
        shared.calls := shared.calls + 1;
      }
      return;
    }
    batches, approvedLeft := ForwardRuns(left, randoms, starsApproved, price, shared);
  }

  /** The loop over what is left in the draft, and the last `sendAccumulated`. */
  method ForwardRuns(left: seq<Item>, randoms: seq<int>, starsApproved: int32, price: int32, shared: SharedCallback?)
    returns (batches: seq<Batch>, approvedLeft: int)
    requires left != [] && |randoms| == |left| && price >= 0
    requires shared != null ==> shared.View() == Counter(0, 0, {})
    modifies shared
    ensures Whole(batches) && AreRuns(Pieces(batches)) && Concat(Pieces(batches)) == left
    ensures Concat(RandomIds(batches)) == randoms && batches != []
    ensures Accounted(batches, starsApproved, price, approvedLeft, shared)
    ensures TotalPaid(batches) == Min(starsApproved, FullCost(|left|, price)) <==>
        PaysRight(batches, starsApproved, price)
  {
    hide Whole, AreRuns, PaysInTurn, PaysRight, TotalPaid, Accumulated, Cost, FullCost;
    hide Concat, Pieces, RandomIds, Range;
    batches, approvedLeft := [], starsApproved;
    NothingAccumulated(starsApproved, price);
    var forwardFrom := left[0].from;
    var ids: seq<Item>, randomIds: seq<int> := [], [];
    NothingRead(forwardFrom);
    for i := 0 to |left|
      invariant Accumulated(batches, forwardFrom, ids, randomIds, left[..i], randoms[..i])
      invariant Accounted(batches, starsApproved, price, approvedLeft, shared)
      invariant if i == 0 then ids == [] && forwardFrom == left[0].from else ids != []
    {
      hide Accounted;
      batches, forwardFrom, ids, randomIds, approvedLeft := AddItem(
        batches, forwardFrom, ids, randomIds, left[i], randoms[i], approvedLeft, price, shared,
        starsApproved, left[..i], randoms[..i]);
      assert left[..i + 1] == left[..i] + [left[i]] && randoms[..i + 1] == randoms[..i] + [randoms[i]];
    }
    assert left[..|left|] == left && randoms[..|left|] == randoms;
    batches, approvedLeft := SendRun(
      batches, forwardFrom, ids, randomIds, approvedLeft, price, shared, starsApproved, left, randoms);
    ItemsCounted(batches);
    PaidInAllExactlyWhen(batches, starsApproved, price);
  }

  lemma LastFrom(batches: seq<Batch>)
    requires Whole(batches) && batches != []
    ensures batches[|batches| - 1].items != [] && batches[|batches| - 1].from == batches[|batches| - 1].items[0].from
  {
  }

  lemma NothingAccumulated(approved: int, price: int)
    ensures PaysInTurn([], approved, price) && TotalPaid([]) == 0 && Whole([]) && AreRuns(Pieces([]))
    ensures Concat(Pieces([])) == [] && Concat(RandomIds([])) == [] && Range(0) == {}
  {
  }

  lemma NothingRead(from: Peer)
    ensures Accumulated([], from, [], [], [], [])
  {
  }

  lemma PushFirst(batches: seq<Batch>, from: Peer, item: Item, random: int, done: seq<Item>, randoms: seq<int>)
    requires Whole(batches) && AreRuns(Pieces(batches)) && batches != [] && batches[|batches| - 1].from != from
    requires Concat(Pieces(batches)) == done && Concat(RandomIds(batches)) == randoms && item.from == from
    ensures Accumulated(batches, from, [item], [random], done + [item], randoms + [random])
  {
    hide Whole, AreRuns;
  }

  lemma PushMore(
    batches: seq<Batch>, from: Peer, ids: seq<Item>, randomIds: seq<int>, item: Item, random: int,
    done: seq<Item>, randoms: seq<int>)
    requires Accumulated(batches, from, ids, randomIds, done, randoms) && item.from == from
    ensures Accumulated(batches, from, ids + [item], randomIds + [random], done + [item], randoms + [random])
  {
    hide Whole, AreRuns;
  }
}
