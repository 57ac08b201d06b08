/** The sidebar's space allocator: divides `height` lines among the object windows.

    `Plan` follows the three stages of the source. What a plan has to be is stated
    without reference to that algorithm, by `GoodPlan`; `PlanIsUnique` shows that
    `GoodPlan` leaves no choice in anything that is drawn. */
module SidebarPlan {

  /** What the planner reads: body rows each window would like, which windows the user
      collapsed, the focused window (-1 when the chat has focus), and the lines to fill. */
  datatype Input = Input(natural: seq<nat>, collapsed: seq<bool>, focused: int, height: int)
  {
    ghost predicate Valid() {
      |natural| == |collapsed| && -1 <= focused < |natural|
    }
  }

  /** Body rows granted to each window, and the windows the planner itself collapsed. */
  datatype Plan = Plan(body: seq<nat>, auto: seq<bool>)

  // ---------- Line costs ----------

  function FloorRows(natural: nat): nat {
    if natural < 3 then natural else 3
  }

  function Floors(natural: seq<nat>): seq<nat> {
    seq(|natural|, i requires 0 <= i < |natural| => FloorRows(natural[i]))
  }

  /** Title, then underline and body unless hidden, then a margin unless last. */
  function WindowCost(n: nat, i: nat, body: nat, hidden: bool): nat {
    (if hidden then 1 else 2 + body) + (if i + 1 < n then 1 else 0)
  }

  /** Lines taken by the first `k` windows. */
  function Cost(body: seq<nat>, hidden: seq<bool>, k: nat): nat
    requires |body| == |hidden| && k <= |body|
  {
    if k == 0 then 0 else Cost(body, hidden, k - 1) + WindowCost(|body|, k - 1, body[k - 1], hidden[k - 1])
  }

  function TotalCost(body: seq<nat>, hidden: seq<bool>): nat
    requires |body| == |hidden|
  {
    Cost(body, hidden, |body|)
  }

  function Hidden(collapsed: seq<bool>, auto: seq<bool>): seq<bool>
    requires |collapsed| == |auto|
  {
    seq(|auto|, i requires 0 <= i < |auto| => collapsed[i] || auto[i])
  }

  /** Everything hidden except the focused window, if that one is expanded. */
  function OnlyFocused(inp: Input): seq<bool>
    requires inp.Valid()
  {
    seq(|inp.natural|, i requires 0 <= i < |inp.natural| => inp.collapsed[i] || i != inp.focused)
  }

  /** The fewest lines any plan can take. */
  function MinCost(inp: Input): nat
    requires inp.Valid()
  {
    TotalCost(Floors(inp.natural), OnlyFocused(inp))
  }

  // ---------- What a plan must be ----------

  ghost predicate Before(i: int, j: int, focused: int) {
    i != j && j != focused && (i == focused || i < j)
  }

  /** Rank of a window in the collapse order: nearest the focus first, and below before
      above at equal distance; from the bottom up when nothing is focused. */
  function Rank(n: nat, i: int, focused: int): int {
    if focused < 0 then n - 1 - i
    else if i > focused then 2 * (i - focused)
    else 2 * (focused - i) + 1
  }

  ghost predicate Candidate(inp: Input, i: int)
    requires inp.Valid()
  {
    0 <= i < |inp.natural| && i != inp.focused && !inp.collapsed[i]
  }

  ghost predicate Sized(inp: Input, p: Plan)
    requires inp.Valid()
  {
    && |p.body| == |p.auto| == |inp.natural|
    && forall i | 0 <= i < |p.auto| && p.auto[i] :: Candidate(inp, i)
  }

  ghost predicate NothingAuto(p: Plan) {
    forall i | 0 <= i < |p.auto| :: !p.auto[i]
  }

  /** Bodies lie between floor and natural height, and no window has more than its floor
      while one served before it still wants rows. */
  ghost predicate Greedy(inp: Input, body: seq<nat>)
    requires inp.Valid() && |body| == |inp.natural|
  {
    && (forall i | 0 <= i < |body| && !inp.collapsed[i] :: FloorRows(inp.natural[i]) <= body[i] <= inp.natural[i])
    && (forall i, j | 0 <= i < |body| && 0 <= j < |body| && !inp.collapsed[i] && !inp.collapsed[j]
                      && Before(i, j, inp.focused) && FloorRows(inp.natural[j]) < body[j]
          :: body[i] == inp.natural[i])
  }

  /** The windows collapsed by the planner are the lowest ranked candidates, ... */
  ghost predicate LowestRanked(inp: Input, auto: seq<bool>)
    requires inp.Valid() && |auto| == |inp.natural|
  {
    forall i, j | 0 <= i < |auto| && auto[i] && Candidate(inp, j)
                  && Rank(|auto|, j, inp.focused) < Rank(|auto|, i, inp.focused) :: auto[j]
  }

  /** ... enough of them to fit if any number is enough, ... */
  ghost predicate Enough(inp: Input, auto: seq<bool>)
    requires inp.Valid() && |auto| == |inp.natural|
  {
    || TotalCost(Floors(inp.natural), Hidden(inp.collapsed, auto)) <= inp.height
    || forall i | Candidate(inp, i) :: auto[i]
  }

  ghost predicate Last(auto: seq<bool>, focused: int, i: int) {
    && 0 <= i < |auto| && auto[i]
    && forall j | 0 <= j < |auto| && auto[j] :: Rank(|auto|, j, focused) <= Rank(|auto|, i, focused)
  }

  /** ... and not one more: without the last of them the sidebar would overflow. */
  ghost predicate NoneTooMany(inp: Input, auto: seq<bool>)
    requires inp.Valid() && |auto| == |inp.natural|
  {
    forall i | Last(auto, inp.focused, i) ::
      inp.height < TotalCost(Floors(inp.natural), Hidden(inp.collapsed, auto[i := false]))
  }

  ghost predicate CollapsedPlan(inp: Input, p: Plan)
    requires inp.Valid() && Sized(inp, p)
  {
    var floors := Floors(inp.natural);
    var left := inp.height - TotalCost(floors, Hidden(inp.collapsed, p.auto));
    && LowestRanked(inp, p.auto) && Enough(inp, p.auto) && NoneTooMany(inp, p.auto)
    && forall i | 0 <= i < |p.body| && !inp.collapsed[i] && !p.auto[i] ::
         p.body[i] == if i == inp.focused && left > 0
                      then if inp.natural[i] - floors[i] <= left then inp.natural[i] else floors[i] + left
                      else floors[i]
  }

  ghost predicate GoodPlan(inp: Input, p: Plan)
    requires inp.Valid()
  {
    && Sized(inp, p)
    && if TotalCost(inp.natural, inp.collapsed) <= inp.height then
         NothingAuto(p) && p.body == inp.natural
       else if TotalCost(Floors(inp.natural), inp.collapsed) <= inp.height then
         NothingAuto(p) && Greedy(inp, p.body) && TotalCost(p.body, inp.collapsed) == inp.height
       else
         CollapsedPlan(inp, p)
  }

  function PlanCost(inp: Input, p: Plan): nat
    requires inp.Valid() && |p.body| == |p.auto| == |inp.natural|
  {
    TotalCost(p.body, Hidden(inp.collapsed, p.auto))
  }

  // ---------- Arithmetic of costs ----------

  /** Less hidden and larger bodies never cost less, and cost more if they differ at `w`. */
  lemma {:induction false} CostMonotone(b1: seq<nat>, h1: seq<bool>, b2: seq<nat>, h2: seq<bool>, k: nat, w: int)
    requires |b1| == |h1| == |b2| == |h2| && k <= |b1|
    requires forall i | 0 <= i < k :: h1[i] || (!h2[i] && b1[i] <= b2[i])
    ensures Cost(b1, h1, k) <= Cost(b2, h2, k)
    ensures 0 <= w < k && !h2[w] && (h1[w] || b1[w] < b2[w]) ==> Cost(b1, h1, k) < Cost(b2, h2, k)
  {
    if k > 0 {
      CostMonotone(b1, h1, b2, h2, k - 1, w);
    }
  }

  lemma {:induction false} CostSame(b1: seq<nat>, h: seq<bool>, b2: seq<nat>, k: nat)
    requires |b1| == |h| == |b2| && k <= |b1|
    requires forall i | 0 <= i < k && !h[i] :: b1[i] == b2[i]
    ensures Cost(b1, h, k) == Cost(b2, h, k)
  {
    if k > 0 {
      CostSame(b1, h, b2, k - 1);
    }
  }

  lemma {:induction false} CostGrow(body: seq<nat>, hidden: seq<bool>, i: nat, x: nat, k: nat)
    requires |body| == |hidden| && k <= |body| && i < |body| && !hidden[i]
    ensures Cost(body[i := x], hidden, k) == Cost(body, hidden, k) + if i < k then x - body[i] else 0
  {
    if k > 0 {
      CostGrow(body, hidden, i, x, k - 1);
    }
  }

  // ---------- Properties of every good plan ----------

  /** A plan overflows only when even collapsing every window but the focused one would. */
  lemma FitsIffMinimumFits(inp: Input, p: Plan)
    requires inp.Valid() && GoodPlan(inp, p)
    ensures PlanCost(inp, p) <= inp.height <==> MinCost(inp) <= inp.height
  {
    var n, floors := |inp.natural|, Floors(inp.natural);
    var hidden := Hidden(inp.collapsed, p.auto);
    CostMonotone(floors, OnlyFocused(inp), p.body, hidden, n, -1);
    if NothingAuto(p) {
      assert hidden == inp.collapsed;
    }
    if TotalCost(floors, inp.collapsed) > inp.height {
      CostMonotone(floors, inp.collapsed, inp.natural, inp.collapsed, n, -1);
      CollapsedPlanCost(inp, p);
      if forall i | Candidate(inp, i) :: p.auto[i] {
        assert hidden == OnlyFocused(inp);
      }
    }
  }

  /** What the rows handed to the focused window add to a collapsed plan. */
  lemma CollapsedPlanCost(inp: Input, p: Plan)
    requires inp.Valid() && Sized(inp, p) && CollapsedPlan(inp, p)
    ensures var base := TotalCost(Floors(inp.natural), Hidden(inp.collapsed, p.auto));
            PlanCost(inp, p) == base || base < PlanCost(inp, p) <= inp.height
  {
    var n, floors, hidden := |inp.natural|, Floors(inp.natural), Hidden(inp.collapsed, p.auto);
    var f := inp.focused;
    if 0 <= f < n && !hidden[f] {
      CostGrow(floors, hidden, f, p.body[f], n);
      CostSame(floors[f := p.body[f]], hidden, p.body, n);
    } else {
      CostSame(floors, hidden, p.body, n);
    }
  }

  /** Every drawn window gets at least min(3, natural) rows and never more than it wants. */
  lemma BodyWithinBounds(inp: Input, p: Plan, i: nat)
    requires inp.Valid() && GoodPlan(inp, p) && i < |p.body| && !inp.collapsed[i] && !p.auto[i]
    ensures FloorRows(inp.natural[i]) <= p.body[i] <= inp.natural[i]
  {
  }

  /** The focused window is never collapsed by the planner and gets all it wants, or all
      that is left once the other drawn windows are at their floors. */
  lemma FocusedGetsMost(inp: Input, p: Plan)
    requires inp.Valid() && GoodPlan(inp, p) && inp.focused >= 0 && !inp.collapsed[inp.focused]
    ensures !p.auto[inp.focused]
    ensures var left := inp.height - TotalCost(Floors(inp.natural), Hidden(inp.collapsed, p.auto));
            var want, least := inp.natural[inp.focused], FloorRows(inp.natural[inp.focused]);
            p.body[inp.focused] == if left <= 0 then least else if want - least <= left then want else least + left
  {
    var n, f, floors := |inp.natural|, inp.focused, Floors(inp.natural);
    var hidden := Hidden(inp.collapsed, p.auto);
    CostMonotone(floors, inp.collapsed, inp.natural, inp.collapsed, n, -1);
    if TotalCost(floors, inp.collapsed) <= inp.height {
      assert hidden == inp.collapsed;
      CostGrow(floors, hidden, f, p.body[f], n);
      var grown := floors[f := p.body[f]];
      if p.body[f] < inp.natural[f] {
        CostSame(grown, hidden, p.body, n);
      } else {
        CostMonotone(grown, hidden, p.body, hidden, n, -1);
      }
    }
  }

  /** Every drawn window gets three rows or its whole list; more than three go from the top
      down, after the focused window has all that it wants; and while no window is collapsed
      for it, no line is left over that a window could use. */
  lemma SurplusGoesDown(inp: Input, p: Plan, i: nat, j: nat)
    requires inp.Valid() && GoodPlan(inp, p) && i < |p.body| && j < |p.body|
    requires !inp.collapsed[i] && !p.auto[i] && !inp.collapsed[j] && !p.auto[j]
    ensures p.body[i] == inp.natural[i] || 3 <= p.body[i] < inp.natural[i]
    ensures p.body[j] > 3 && j != inp.focused && (i == inp.focused || i < j) ==> p.body[i] == inp.natural[i]
    ensures NothingAuto(p) && p.body[i] < inp.natural[i] && PlanCost(inp, p) <= inp.height ==>
              PlanCost(inp, p) == inp.height
  {
    CostMonotone(Floors(inp.natural), inp.collapsed, inp.natural, inp.collapsed, |inp.natural|, -1);
    if NothingAuto(p) {
      assert Hidden(inp.collapsed, p.auto) == inp.collapsed;
      if TotalCost(Floors(inp.natural), inp.collapsed) > inp.height {
        CostMonotone(Floors(inp.natural), inp.collapsed, p.body, inp.collapsed, |inp.natural|, -1);
      }
    } else if j != inp.focused {
      assert p.body[j] == Floors(inp.natural)[j];
    }
  }

  // ---------- The plan is determined ----------

  lemma StageTwoUnique(inp: Input, b1: seq<nat>, b2: seq<nat>, i: nat)
    requires inp.Valid() && |b1| == |b2| == |inp.natural|
    requires Greedy(inp, b1) && Greedy(inp, b2)
    requires TotalCost(b1, inp.collapsed) == TotalCost(b2, inp.collapsed)
    requires i < |b1| && !inp.collapsed[i]
    ensures b1[i] <= b2[i]
  {
    if b1[i] > b2[i] {
      forall j | 0 <= j < |b1| && !inp.collapsed[j]
        ensures b2[j] <= b1[j]
      {
        assert j == i || Before(i, j, inp.focused) || Before(j, i, inp.focused);
      }
      CostMonotone(b2, inp.collapsed, b1, inp.collapsed, |b1|, i);
    }
  }

  lemma MaxRank(auto: seq<bool>, focused: int, extra: int) returns (last: int)
    requires 0 <= extra < |auto| && auto[extra]
    ensures Last(auto, focused, last) && Rank(|auto|, extra, focused) <= Rank(|auto|, last, focused)
  {
    last := extra;
    for k := 0 to |auto|
      invariant 0 <= last < |auto| && auto[last] && Rank(|auto|, extra, focused) <= Rank(|auto|, last, focused)
      invariant forall j | 0 <= j < k && auto[j] :: Rank(|auto|, j, focused) <= Rank(|auto|, last, focused)
    {
      if auto[k] && Rank(|auto|, last, focused) < Rank(|auto|, k, focused) {
        last := k;
      }
    }
  }

  lemma StageThreeUnique(inp: Input, a1: seq<bool>, a2: seq<bool>, extra: nat)
    requires inp.Valid() && |a1| == |a2| == |inp.natural| && extra < |a1|
    requires forall i | 0 <= i < |a1| && (a1[i] || a2[i]) :: Candidate(inp, i)
    requires LowestRanked(inp, a1) && LowestRanked(inp, a2)
    requires Enough(inp, a1) && NoneTooMany(inp, a2)
    requires a2[extra]
    ensures a1[extra]
  {
    if !a1[extra] {
      var last := MaxRank(a2, inp.focused, extra);
      var fewer := a2[last := false];
      forall i | 0 <= i < |a1| && a1[i]
        ensures fewer[i]
      {
        assert Rank(|a1|, i, inp.focused) != Rank(|a1|, extra, inp.focused);
        assert Rank(|a1|, i, inp.focused) < Rank(|a1|, extra, inp.focused);
      }
      var floors := Floors(inp.natural);
      CostMonotone(floors, Hidden(inp.collapsed, fewer), floors, Hidden(inp.collapsed, a1), |a1|, -1);
    }
  }

  /** The same windows are drawn with the same bodies in every good plan. */
  lemma PlanIsUnique(inp: Input, p1: Plan, p2: Plan)
    requires inp.Valid() && GoodPlan(inp, p1) && GoodPlan(inp, p2)
    ensures p1.auto == p2.auto
    ensures forall i | 0 <= i < |p1.body| && !inp.collapsed[i] && !p1.auto[i] :: p1.body[i] == p2.body[i]
  {
    if TotalCost(Floors(inp.natural), inp.collapsed) <= inp.height {
      if TotalCost(inp.natural, inp.collapsed) > inp.height {
        forall i | 0 <= i < |p1.body| && !inp.collapsed[i]
          ensures p1.body[i] == p2.body[i]
        {
          StageTwoUnique(inp, p1.body, p2.body, i);
          StageTwoUnique(inp, p2.body, p1.body, i);
        }
      }
    } else {
      CostMonotone(Floors(inp.natural), inp.collapsed, inp.natural, inp.collapsed, |inp.natural|, -1);
      forall i | 0 <= i < |p1.auto|
        ensures p1.auto[i] == p2.auto[i]
      {
        if p2.auto[i] { StageThreeUnique(inp, p1.auto, p2.auto, i); }
        if p1.auto[i] { StageThreeUnique(inp, p2.auto, p1.auto, i); }
      }
    }
  }

  // ---------- The planner ----------

  ghost predicate RankSorted(n: nat, order: seq<nat>, focused: int) {
    forall a, b | 0 <= a < b < |order| :: Rank(n, order[a], focused) < Rank(n, order[b], focused)
  }

  function Distance(i: int, j: int): nat {
    if i < j then j - i else i - j
  }

  /** Window `i` is the first to go of the two: the one nearer to the focus, the lower one of
      two as near; without a focus, the lower one. */
  predicate GoesFirst(i: int, j: int, focused: int) {
    if focused < 0 then i > j
    else Distance(i, focused) < Distance(j, focused) || (Distance(i, focused) == Distance(j, focused) && i > j)
  }

  lemma RankMeans(n: nat, i: nat, j: nat, focused: int)
    requires i < n && j < n && focused < n
    ensures Rank(n, i, focused) < Rank(n, j, focused) <==> GoesFirst(i, j, focused)
  {
  }

  /** The collapse order: every window but the focused one, exactly once, by rank. */
  method CollapseOrder(n: nat, focused: int) returns (order: seq<nat>)
    requires -1 <= focused < n
    ensures forall i: nat :: i in order <==> i < n && i != focused
    ensures |order| == if focused < 0 then n else n - 1
    ensures RankSorted(n, order, focused)
  {
    if focused >= 0 {
      order := OutwardFrom(n, focused);
      return;
    }
    order := [];
    var i := n - 1;
    while i >= 0
      invariant -1 <= i < n
      invariant |order| == n - 1 - i && forall a | 0 <= a < |order| :: order[a] == n - 1 - a
      invariant forall j: nat :: j in order <==> i < j < n
    {
      order := order + [i];
      i := i - 1;
    }
  }

  /** What is done so far on both sides of the focused window: `lo` and `hi` are next. */
  ghost predicate Outward(n: nat, focused: nat, order: seq<nat>, lo: int, hi: int) {
    && -1 <= lo < focused < hi <= n
    && |order| == (focused - 1 - lo) + (hi - focused - 1)
    && (forall j: nat :: j in order <==> lo < j < hi && j != focused)
    && RankSorted(n, order, focused)
    && (forall a | 0 <= a < |order| ::
          && (lo >= 0 ==> Rank(n, order[a], focused) < Rank(n, lo, focused))
          && (hi < n ==> Rank(n, order[a], focused) < Rank(n, hi, focused)))
  }

  /** Both sides are equally far, while both last. */
  ghost predicate Abreast(n: nat, focused: nat, lo: int, hi: int) {
    && (lo >= 0 && hi < n ==> focused - lo == hi - focused)
    && (lo < 0 && hi < n ==> focused < hi - focused)
    && (hi >= n && lo >= 0 ==> n - focused <= focused - lo)
  }

  /** The high side is one ahead, while it lasts. */
  ghost predicate HighAhead(n: nat, focused: nat, lo: int, hi: int) {
    && (lo >= 0 && hi < n ==> hi - focused == focused - lo + 1)
    && (lo < 0 && hi < n ==> focused < hi - focused)
    && (lo >= 0 && hi >= n ==> n - focused <= focused - lo + 1)
  }

  lemma TakeHigh(n: nat, focused: nat, order: seq<nat>, lo: int, hi: nat)
    requires Outward(n, focused, order, lo, hi) && hi < n && Abreast(n, focused, lo, hi)
    ensures Outward(n, focused, order + [hi], lo, hi + 1) && HighAhead(n, focused, lo, hi + 1)
  {
  }

  lemma TakeLow(n: nat, focused: nat, order: seq<nat>, lo: nat, hi: int)
    requires Outward(n, focused, order, lo, hi) && HighAhead(n, focused, lo, hi)
    ensures Outward(n, focused, order + [lo], lo - 1, hi) && Abreast(n, focused, lo - 1, hi)
  {
  }

  lemma OneSideOnly(n: nat, focused: nat, lo: int, hi: int)
    requires focused < n && lo >= -1
    ensures hi >= n && Abreast(n, focused, lo, hi) && lo >= 0 ==> HighAhead(n, focused, lo, hi)
    ensures lo < 0 && HighAhead(n, focused, lo, hi) ==> Abreast(n, focused, lo, hi)
  {
  }

  method OutwardFrom(n: nat, focused: nat) returns (order: seq<nat>)
    requires focused < n
    ensures forall i: nat :: i in order <==> i < n && i != focused
    ensures |order| == n - 1 && RankSorted(n, order, focused)
  {
    order := [];
    var lo, hi: nat := focused - 1, focused + 1;
    while lo >= 0 || hi < n
      invariant Outward(n, focused, order, lo, hi) && Abreast(n, focused, lo, hi)
      decreases lo + n - hi
    {
      OneSideOnly(n, focused, lo, hi);
      if hi < n {
        TakeHigh(n, focused, order, lo, hi);
        order, hi := order + [hi], hi + 1;
      }
      OneSideOnly(n, focused, lo, hi);
      if lo >= 0 {
        var low: nat := lo;
        TakeLow(n, focused, order, low, hi);
        order, lo := order + [low], lo - 1;
      }
    }
  }

  /** The running total the planner takes before each decision. */
  method Measure(body: seq<nat>, hidden: seq<bool>) returns (total: nat)
    requires |body| == |hidden|
    ensures total == TotalCost(body, hidden)
  {
    total := 0;
    for i := 0 to |body|
      invariant total == Cost(body, hidden, i)
    {
      total := total + WindowCost(|body|, i, body[i], hidden[i]);
    }
  }

  /** The state of stage 2 after serving the focused window and all windows below `i`. */
  ghost predicate Sharing(inp: Input, body: seq<nat>, surplus: int, i: nat)
    requires inp.Valid() && |body| == |inp.natural|
  {
    && Greedy(inp, body) && surplus >= 0
    && TotalCost(body, inp.collapsed) + surplus == inp.height
    && (forall j | i <= j < |body| && j != inp.focused :: body[j] == FloorRows(inp.natural[j]))
    && (surplus > 0 ==>
          forall j | 0 <= j < |body| && (j < i || j == inp.focused) && !inp.collapsed[j] :: body[j] == inp.natural[j])
  }

  function Grant(wanted: nat, surplus: nat): nat {
    if wanted > surplus then surplus else wanted
  }

  lemma GrantKeepsSharing(inp: Input, body: seq<nat>, surplus: nat, i: nat)
    requires inp.Valid() && |body| == |inp.natural| && i < |body| && i != inp.focused && !inp.collapsed[i]
    requires Sharing(inp, body, surplus, i) && surplus > 0
    ensures var add := Grant(inp.natural[i] - body[i], surplus);
            Sharing(inp, body[i := body[i] + add], surplus - add, i + 1)
  {
    var add := Grant(inp.natural[i] - body[i], surplus);
    CostGrow(body, inp.collapsed, i, body[i] + add, |body|);
  }

  lemma SkipKeepsSharing(inp: Input, body: seq<nat>, surplus: int, i: nat)
    requires inp.Valid() && |body| == |inp.natural| && i < |body|
    requires Sharing(inp, body, surplus, i) && (i == inp.focused || inp.collapsed[i] || surplus <= 0)
    ensures Sharing(inp, body, surplus, i + 1)
  {
  }

  lemma FocusServedFirst(inp: Input, surplus: nat)
    requires inp.Valid()
    requires surplus == inp.height - TotalCost(Floors(inp.natural), inp.collapsed)
    ensures inp.focused < 0 || inp.collapsed[inp.focused] ==> Sharing(inp, Floors(inp.natural), surplus, 0)
    ensures inp.focused >= 0 && !inp.collapsed[inp.focused] ==>
              var floors, f := Floors(inp.natural), inp.focused;
              var add := Grant(inp.natural[f] - floors[f], surplus);
              Sharing(inp, floors[f := floors[f] + add], surplus - add, 0)
  {
    var floors, f := Floors(inp.natural), inp.focused;
    if f >= 0 && !inp.collapsed[f] {
      CostGrow(floors, inp.collapsed, f, floors[f] + Grant(inp.natural[f] - floors[f], surplus), |floors|);
    }
  }

  lemma SharedOut(inp: Input, body: seq<nat>, surplus: int)
    requires inp.Valid() && |body| == |inp.natural|
    requires inp.height < TotalCost(inp.natural, inp.collapsed)
    requires Sharing(inp, body, surplus, |body|)
    ensures surplus == 0
  {
    if surplus > 0 {
      CostSame(body, inp.collapsed, inp.natural, |body|);
    }
  }

  /** Floors for all, and what the focused window can take of the surplus. */
  method ServeFocus(inp: Input) returns (body: seq<nat>, surplus: int)
    requires inp.Valid() && TotalCost(Floors(inp.natural), inp.collapsed) <= inp.height
    ensures |body| == |inp.natural| && Sharing(inp, body, surplus, 0)
  {
    var f := inp.focused;
    body := Floors(inp.natural);
    var floorTotal := Measure(body, inp.collapsed);
    surplus := inp.height - floorTotal;
    FocusServedFirst(inp, surplus);
    if f >= 0 && !inp.collapsed[f] {
      var add := Grant(inp.natural[f] - FloorRows(inp.natural[f]), surplus);
      body := body[f := body[f] + add];
      surplus := surplus - add;
    }
  }

  /** Stage 2 of the planner: floors for all, then the surplus, focused window first. */
  method ShareSurplus(inp: Input) returns (body: seq<nat>)
    requires inp.Valid()
    requires TotalCost(Floors(inp.natural), inp.collapsed) <= inp.height < TotalCost(inp.natural, inp.collapsed)
    ensures |body| == |inp.natural| && Greedy(inp, body)
    ensures TotalCost(body, inp.collapsed) == inp.height
  {
    var n, f := |inp.natural|, inp.focused;
    var surplus;
    body, surplus := ServeFocus(inp);
    for i := 0 to n
      invariant |body| == n && Sharing(inp, body, surplus, i)
    {
      if i == f || inp.collapsed[i] || surplus <= 0 {
        SkipKeepsSharing(inp, body, surplus, i);
        continue;
      }
      GrantKeepsSharing(inp, body, surplus, i);
      var add := Grant(inp.natural[i] - body[i], surplus);
      body, surplus := body[i := body[i] + add], surplus - add;
    }
    SharedOut(inp, body, surplus);
  }

  /** Exactly the candidates among the first `k` of `order` are collapsed, none too many. */
  ghost predicate Collapsing(inp: Input, body: seq<nat>, auto: seq<bool>, order: seq<nat>, k: nat)
    requires inp.Valid() && |body| == |auto| == |inp.natural| && k <= |order|
  {
    && (forall i: nat | i < |auto| :: auto[i] <==> Candidate(inp, i) && i in order[..k])
    && (forall i | 0 <= i < |body| :: body[i] == if auto[i] then 0 else FloorRows(inp.natural[i]))
    && NoneTooMany(inp, auto)
  }

  ghost predicate IsCollapseOrder(inp: Input, order: seq<nat>) {
    && (forall i: nat :: i in order <==> i < |inp.natural| && i != inp.focused)
    && RankSorted(|inp.natural|, order, inp.focused)
  }

  lemma CollapseOneMore(inp: Input, body: seq<nat>, auto: seq<bool>, order: seq<nat>, k: nat)
    requires inp.Valid() && |body| == |auto| == |inp.natural| && k < |order|
    requires IsCollapseOrder(inp, order) && Collapsing(inp, body, auto, order, k)
    requires Candidate(inp, order[k])
    requires inp.height < TotalCost(Floors(inp.natural), Hidden(inp.collapsed, auto))
    ensures Collapsing(inp, body[order[k] := 0], auto[order[k] := true], order, k + 1)
  {
    var i := order[k];
    var auto' := auto[i := true];
    assert order[..k + 1] == order[..k] + [i];
    forall j: nat | j < |auto| && auto[j]
      ensures Rank(|auto|, j, inp.focused) < Rank(|auto|, i, inp.focused)
    {
      var a :| 0 <= a < k && order[..k][a] == j;
    }
    forall j | Last(auto', inp.focused, j)
      ensures j == i
    {
      assert auto'[i];
    }
    assert auto'[i := false] == auto;
  }

  lemma CollapsingIsLowestRanked(inp: Input, body: seq<nat>, auto: seq<bool>, order: seq<nat>, k: nat)
    requires inp.Valid() && |body| == |auto| == |inp.natural| && k <= |order|
    requires IsCollapseOrder(inp, order) && Collapsing(inp, body, auto, order, k)
    ensures LowestRanked(inp, auto)
    ensures k == |order| ==> forall i | Candidate(inp, i) :: auto[i]
  {
    forall i, j | 0 <= i < |auto| && auto[i] && Candidate(inp, j)
                  && Rank(|auto|, j, inp.focused) < Rank(|auto|, i, inp.focused)
      ensures auto[j]
    {
      var a :| 0 <= a < k && order[..k][a] == i;
      assert j in order;
      var b :| 0 <= b < |order| && order[b] == j;
      assert b < a;
      assert order[..k][b] == j;
    }
    if k == |order| {
      assert order[..k] == order;
    }
  }

  /** Stage 3: collapse in order until everything fits, then give what is left to the focus. */
  method AutoCollapse(inp: Input) returns (p: Plan)
    requires inp.Valid()
    requires inp.height < TotalCost(Floors(inp.natural), inp.collapsed)
    ensures Sized(inp, p) && CollapsedPlan(inp, p)
  {
    var body, auto, surplus := CollapseUntilFit(inp);
    var f := inp.focused;
    if f >= 0 && !inp.collapsed[f] && surplus > 0 {
      var add := inp.natural[f] - body[f];
      if add > surplus {
        add := surplus;
      }
      if add > 0 {
        body := body[f := body[f] + add];
      }
    }
    p := Plan(body, auto);
  }

  method CollapseUntilFit(inp: Input) returns (body: seq<nat>, auto: seq<bool>, surplus: int)
    requires inp.Valid()
    requires inp.height < TotalCost(Floors(inp.natural), inp.collapsed)
    ensures |body| == |auto| == |inp.natural|
    ensures forall i | 0 <= i < |auto| && auto[i] :: Candidate(inp, i)
    ensures LowestRanked(inp, auto) && Enough(inp, auto) && NoneTooMany(inp, auto)
    ensures forall i | 0 <= i < |body| :: body[i] == if auto[i] then 0 else FloorRows(inp.natural[i])
    ensures surplus == inp.height - TotalCost(Floors(inp.natural), Hidden(inp.collapsed, auto))
  {
    var n, f := |inp.natural|, inp.focused;
    body, auto := Floors(inp.natural), seq(n, _ => false);
    var order := CollapseOrder(n, f);
    assert Hidden(inp.collapsed, auto) == inp.collapsed;
    var k := 0;
    var fits := false;
    while k < |order| && !fits
      invariant |body| == |auto| == n && k <= |order|
      invariant IsCollapseOrder(inp, order) && Collapsing(inp, body, auto, order, k)
      invariant fits <==> TotalCost(Floors(inp.natural), Hidden(inp.collapsed, auto)) <= inp.height
    {
      var i := order[k];
      assert i in order;
      if inp.collapsed[i] {
        assert order[..k + 1] == order[..k] + [i];
        k := k + 1;
        continue;
      }
      CollapseOneMore(inp, body, auto, order, k);
      auto, body, k := auto[i := true], body[i := 0], k + 1;
      var cur := Measure(body, Hidden(inp.collapsed, auto));
      CostSame(body, Hidden(inp.collapsed, auto), Floors(inp.natural), n);
      fits := cur <= inp.height;
    }
    CollapsingIsLowestRanked(inp, body, auto, order, k);
    var used := Measure(body, Hidden(inp.collapsed, auto));
    CostSame(body, Hidden(inp.collapsed, auto), Floors(inp.natural), n);
    surplus := inp.height - used;
  }

  /** The planner: natural heights, else floors plus surplus, else automatic collapse. */
  method MakePlan(inp: Input) returns (p: Plan)
    requires inp.Valid()
    ensures GoodPlan(inp, p)
  {
    var nothing := seq(|inp.natural|, _ => false);
    var total := Measure(inp.natural, inp.collapsed);
    var floorTotal := Measure(Floors(inp.natural), inp.collapsed);
    if total <= inp.height {
      p := Plan(inp.natural, nothing);
    } else if floorTotal <= inp.height {
      var body := ShareSurplus(inp);
      p := Plan(body, nothing);
    } else {
      p := AutoCollapse(inp);
    }
  }
}
