/** Drawing the sidebar, as the kinds of line it is made of: scrolling inside one window,
    one window's section, and the whole column. */
module SidebarView {
  import opened Tui
  import opened Wrappers
  import opened SidebarPlan
  import TuiRuns

  datatype Line =
    | Title(win: nat)
    | Underline(win: nat)
    | Loading(win: nat)
    | Failed(win: nat)
    | Nothing(win: nat)
    | MoreAbove(win: nat, count: nat)
    | Row(win: nat, index: nat)
    | MoreBelow(win: nat, count: nat)
    | FilterEntry(win: nat)
    | Margin
    | Notice
    | Padding

  // ---------- Scrolling one window ----------

  /** The slice of a list of `total` rows that `visible` lines show around the selection. */
  function ComputeWindow(total: nat, selected: nat, visible: nat): (nat, nat) {
    if total <= visible then (0, total)
    else
      var start := if selected < visible / 2 then 0 else selected - visible / 2;
      if start + visible > total then (total - visible, total) else (start, start + visible)
  }

  /** Rows [start, limit) are drawn, below a hint for `above` and above one for `below`. */
  datatype Scroll = Scroll(above: nat, start: nat, limit: nat, hintBelow: bool, below: nat)

  function ScrollTo(total: nat, selected: nat, visible: nat): Scroll {
    var (first, end) := ComputeWindow(total, selected, visible);
    var start := if first == 0 then 0 else if first + 1 > selected then selected else first + 1;
    var limit := if end >= total then end else if end - 1 < start then start else end - 1;
    Scroll(first, start, limit, end < total, if end < total then total - limit else 0)
  }

  function RowLines(win: nat, start: nat, limit: nat): seq<Line> {
    if limit <= start then [] else seq(limit - start, k requires 0 <= k => Row(win, start + k))
  }

  function BodyLines(win: nat, total: nat, selected: nat, visible: nat): seq<Line> {
    var sc := ScrollTo(total, selected, visible);
    (if sc.above > 0 then [MoreAbove(win, sc.above)] else [])
    + RowLines(win, sc.start, sc.limit)
    + if sc.hintBelow then [MoreBelow(win, sc.below)] else []
  }

  /** The body fills its lines exactly, and the selected row is among those drawn. */
  ghost predicate Scrolls(total: nat, selected: nat, visible: nat) {
    var sc := ScrollTo(total, selected, visible);
    && |BodyLines(0, total, selected, visible)| == visible
    && sc.start <= selected < sc.limit
  }

  /** At least three lines are enough to scroll any list to any selection. */
  lemma ThreeLinesScroll(total: nat, selected: nat, visible: nat)
    requires selected < total && 3 <= visible < total
    ensures Scrolls(total, selected, visible)
  {
  }

  /** Three lines are also necessary: with fewer, some selection of any longer list is not
      drawn or the body does not fill its lines. */
  lemma FloorOfThreeIsExact(total: nat, visible: nat)
    requires visible < total
    ensures (forall selected: nat | selected < total :: Scrolls(total, selected, visible)) <==> 3 <= visible
  {
    if 3 <= visible {
      forall selected: nat | selected < total
        ensures Scrolls(total, selected, visible)
      {
        ThreeLinesScroll(total, selected, visible);
      }
    } else if visible == 2 {
      assert !Scrolls(total, 1, 2);
    } else {
      assert !Scrolls(total, 0, visible);
    }
  }

  /** So many lines show a whole list, or scroll it to every selection. */
  ghost predicate Shows(total: nat, visible: nat) {
    total == visible
    || (visible < total && forall selected: nat | selected < total :: Scrolls(total, selected, visible))
  }

  /** The planner's floor is the least number of lines that do. */
  lemma FloorIsLeast(total: nat, visible: nat)
    ensures Shows(total, FloorRows(total))
    ensures Shows(total, visible) ==> FloorRows(total) <= visible
  {
    if visible < total {
      FloorOfThreeIsExact(total, visible);
    }
    if FloorRows(total) < total {
      FloorOfThreeIsExact(total, FloorRows(total));
    }
  }

  /** Windows that could be left hidden: those collapsed by the user, and others, taken in
      the collapse order but never the focused one. */
  ghost predicate InCollapseOrder(inp: Input, hidden: seq<bool>)
    requires inp.Valid()
  {
    && |hidden| == |inp.natural|
    && (forall i | 0 <= i < |hidden| :: inp.collapsed[i] ==> hidden[i])
    && (forall i | 0 <= i < |hidden| && hidden[i] && !inp.collapsed[i] :: i != inp.focused)
    && (forall i, j | 0 <= i < |hidden| && 0 <= j < |hidden| && j != inp.focused && !hidden[j] ::
          hidden[i] && !inp.collapsed[i] ==> !GoesFirst(j, i, inp.focused))
  }

  /** Bodies for the windows not hidden that show every list and fit the height. */
  ghost predicate ShownWithin(inp: Input, hidden: seq<bool>, bodies: seq<nat>)
    requires inp.Valid()
  {
    && |hidden| == |bodies| == |inp.natural|
    && (forall i | 0 <= i < |bodies| && !hidden[i] :: Shows(inp.natural[i], bodies[i]))
    && TotalCost(bodies, hidden) <= inp.height
  }

  /** The planner never collapses more than it must: if any bodies that show every list fit
      once some windows are collapsed in the collapse order, it collapses no others. */
  lemma CollapsesNoMore(inp: Input, p: Plan, hidden: seq<bool>, bodies: seq<nat>)
    requires inp.Valid() && GoodPlan(inp, p) && InCollapseOrder(inp, hidden) && ShownWithin(inp, hidden, bodies)
    ensures forall i | 0 <= i < |p.auto| && p.auto[i] :: hidden[i]
  {
    CostMonotone(Floors(inp.natural), inp.collapsed, inp.natural, inp.collapsed, |inp.natural|, -1);
    forall i | 0 <= i < |p.auto| && p.auto[i]
      ensures hidden[i]
    {
      if !hidden[i] {
        WithoutTheLast(inp, p, hidden, bodies, i);
      }
    }
  }

  /** If such windows do not include one that the planner collapses, the last it collapses is
      one too many. */
  lemma WithoutTheLast(inp: Input, p: Plan, hidden: seq<bool>, bodies: seq<nat>, e: nat)
    requires inp.Valid() && Sized(inp, p) && LowestRanked(inp, p.auto)
    requires InCollapseOrder(inp, hidden) && ShownWithin(inp, hidden, bodies)
    requires e < |p.auto| && p.auto[e] && !hidden[e]
    ensures !NoneTooMany(inp, p.auto)
  {
    var n, floors := |inp.natural|, Floors(inp.natural);
    var last := MaxRank(p.auto, inp.focused, e);
    var fewer := Hidden(inp.collapsed, p.auto[last := false]);
    forall i: nat | i < n
      ensures fewer[i] || (!hidden[i] && floors[i] <= bodies[i])
    {
      RankMeans(n, i, e, inp.focused);
      RankMeans(n, e, i, inp.focused);
      if !hidden[i] {
        FloorIsLeast(inp.natural[i], bodies[i]);
      }
    }
    CostMonotone(floors, fewer, bodies, hidden, n, -1);
  }

  /** No window is collapsed by the planner, and all fit, if and only if there are bodies that
      show every list and fit. */
  lemma NoneCollapsedIff(inp: Input, p: Plan)
    requires inp.Valid() && GoodPlan(inp, p)
    ensures NothingAuto(p) && PlanCost(inp, p) <= inp.height <==>
            exists bodies :: ShownWithin(inp, inp.collapsed, bodies)
  {
    if NothingAuto(p) && PlanCost(inp, p) <= inp.height {
      assert Hidden(inp.collapsed, p.auto) == inp.collapsed;
      forall i: nat | i < |p.body| && !inp.collapsed[i]
        ensures Shows(inp.natural[i], p.body[i])
      {
        DrawnBodyShows(inp, p, i);
      }
      assert ShownWithin(inp, inp.collapsed, p.body);
    }
    if bodies :| ShownWithin(inp, inp.collapsed, bodies) {
      CollapsesNoMore(inp, p, inp.collapsed, bodies);
      assert Hidden(inp.collapsed, p.auto) == inp.collapsed;
      NoneCollapsedFits(inp, p, bodies);
    }
  }

  lemma NoneCollapsedFits(inp: Input, p: Plan, bodies: seq<nat>)
    requires inp.Valid() && GoodPlan(inp, p) && NothingAuto(p) && ShownWithin(inp, inp.collapsed, bodies)
    ensures PlanCost(inp, p) <= inp.height
  {
    var n, floors := |inp.natural|, Floors(inp.natural);
    forall i: nat | i < n && !inp.collapsed[i]
      ensures floors[i] <= bodies[i]
    {
      FloorIsLeast(inp.natural[i], bodies[i]);
    }
    CostMonotone(floors, OnlyFocused(inp), bodies, inp.collapsed, n, -1);
    FitsIffMinimumFits(inp, p);
  }

  /** Every window that is drawn can show its list, or scroll it to every selection. */
  lemma DrawnBodyShows(inp: Input, p: Plan, i: nat)
    requires inp.Valid() && GoodPlan(inp, p) && i < |p.body| && !inp.collapsed[i] && !p.auto[i]
    ensures Shows(inp.natural[i], p.body[i])
  {
    BodyWithinBounds(inp, p, i);
    FloorIsLeast(inp.natural[i], p.body[i]);
    if p.body[i] < inp.natural[i] {
      FloorOfThreeIsExact(inp.natural[i], p.body[i]);
    }
  }

  /** The line of the body on which the selected row is drawn. */
  function SelectedLine(total: nat, selected: nat, visible: nat): int {
    if total <= visible || selected <= visible / 2 then selected
    else if selected + visible - visible / 2 >= total then selected + visible - total
    else visible / 2
  }

  /** A body, line by line: rows in order, the selected one in the middle unless an end of the
      list is near, with a hint in place of the first row unless the list starts there, and
      one in place of the last unless it ends there. */
  lemma LineOfBody(win: nat, total: nat, selected: nat, visible: nat, k: nat)
    requires selected < total && (3 <= visible || total <= visible) && k < visible && k < total
    ensures var lines := BodyLines(win, total, selected, visible);
            var row := selected + k - SelectedLine(total, selected, visible);
            && k < |lines|
            && lines[k] == if k == 0 && row > 0 then MoreAbove(win, row)
                           else if k == visible - 1 && row < total - 1 then MoreBelow(win, total - row)
                           else Row(win, row)
  {
  }

  /** There is an upper hint exactly when the selection is past the middle of the lines, and
      it names one row fewer than it hides; a lower one names those it hides. */
  lemma HintCounts(total: nat, selected: nat, visible: nat)
    requires selected < total && 3 <= visible < total
    ensures var sc := ScrollTo(total, selected, visible);
            && (sc.above > 0 <==> selected > visible / 2)
            && sc.start == (if selected > visible / 2 then sc.above + 1 else 0)
            && (sc.hintBelow <==> sc.limit < total) && (sc.hintBelow ==> sc.below == total - sc.limit)
            && (sc.hintBelow <==> selected < total - (visible - visible / 2))
  {
  }

  // ---------- One window ----------

  function NaturalRows(lib: Lib, s: State, i: nat): nat
    requires i < |s.windows|
  {
    var w := s.windows[i];
    if w.isProcs then if s.procs == [] then 1 else |s.procs|
    else if s.loading && w.nodes.None? then 1
    else if Items(lib, w) == [] then 1
    else if Tree(w) then CountRows(Items(lib, w), true)
    else |Items(lib, w)|
  }

  /** The window shows a scrolled list rather than a one-line message. */
  predicate Lists(lib: Lib, s: State, i: nat)
    requires i < |s.windows|
  {
    var w := s.windows[i];
    if w.isProcs then s.procs != []
    else !(s.loading && w.nodes.None?) && !w.failed && Items(lib, w) != []
  }

  function Message(s: State, i: nat): Line
    requires i < |s.windows|
  {
    var w := s.windows[i];
    if w.isProcs then Nothing(i)
    else if s.loading && w.nodes.None? then Loading(i)
    else if w.failed then Failed(i)
    else Nothing(i)
  }

  function ListLength(lib: Lib, s: State, i: nat): nat
    requires i < |s.windows|
  {
    if s.windows[i].isProcs then |s.procs| else |Rows(lib, s.windows[i])|
  }

  function Selection(s: State, i: nat): nat
    requires i < |s.windows|
  {
    if s.windows[i].isProcs then s.procSel else s.windows[i].sel
  }

  predicate EntersFilter(lib: Lib, s: State, i: nat, hidden: bool)
    requires i < |s.windows|
  {
    !hidden && !s.windows[i].isProcs && Lists(lib, s, i) && s.focus == i + 1 && s.filtering
  }

  predicate Drawable(lib: Lib, s: State, i: nat)
    requires i < |s.windows|
  {
    Lists(lib, s, i) ==> Selection(s, i) < ListLength(lib, s, i)
  }

  ghost predicate SelectionExists(lib: Lib, s: State)
  {
    forall i: nat | i < |s.windows| :: Drawable(lib, s, i)
  }

  function Section(lib: Lib, s: State, i: nat, body: nat, hidden: bool): seq<Line>
    requires i < |s.windows|
  {
    if hidden then [Title(i)]
    else if !Lists(lib, s, i) then [Title(i), Underline(i), Message(s, i)]
    else
      [Title(i), Underline(i)]
      + BodyLines(i, ListLength(lib, s, i), Selection(s, i), body)
      + if EntersFilter(lib, s, i, hidden) then [FilterEntry(i)] else []
  }

  // ---------- The column ----------

  function PlanInput(lib: Lib, s: State, height: int): Input {
    var n := |s.windows|;
    Input(
      seq(n, i requires 0 <= i < n => NaturalRows(lib, s, i)),
      seq(n, i requires 0 <= i < n => s.windows[i].collapsed),
      if 0 < s.focus && s.focus - 1 < n then s.focus - 1 else -1,
      height)
  }

  predicate Fitted(s: State, p: Plan) {
    |p.body| == |p.auto| == |s.windows|
  }

  predicate IsHidden(s: State, p: Plan, i: nat)
    requires i < |s.windows| && i < |p.auto|
  {
    s.windows[i].collapsed || p.auto[i]
  }

  /** Every window's section. */
  function Parts(lib: Lib, s: State, p: Plan): seq<seq<Line>>
    requires Fitted(s, p)
  {
    seq(|s.windows|, i requires 0 <= i < |s.windows| => Section(lib, s, i, p.body[i], IsHidden(s, p, i)))
  }

  /** The first `k` sections, with a margin after each but the last of all. */
  function Stack(parts: seq<seq<Line>>, k: nat): seq<Line>
    requires k <= |parts|
  {
    if k == 0 then [] else Stack(parts, k - 1) + parts[k - 1] + if k < |parts| then [Margin] else []
  }

  function Padded(lines: seq<Line>, height: int): seq<Line> {
    lines + if |lines| < height then seq(height - |lines|, _ => Padding) else []
  }

  function Render(lib: Lib, s: State, p: Plan, height: int): seq<Line>
    requires Fitted(s, p)
  {
    Padded(if s.windows == [] then [Notice] else Stack(Parts(lib, s, p), |s.windows|), height)
  }

  /** Where the underline of part i is drawn, or -1 when it is hidden. */
  function JunctionRow(parts: seq<seq<Line>>, hidden: bool, i: nat): int
    requires i <= |parts|
  {
    if hidden then -1 else |Stack(parts, i)| + 1
  }

  function Junction(lib: Lib, s: State, p: Plan, i: nat): int
    requires Fitted(s, p) && i < |s.windows|
  {
    JunctionRow(Parts(lib, s, p), IsHidden(s, p, i), i)
  }

  // ---------- Selections exist in every run ----------

  /** The rows that are counted, drawn and selected from are the same in number. */
  lemma NaturalIsListLength(lib: Lib, s: State, i: nat)
    requires i < |s.windows|
    ensures Lists(lib, s, i) ==> NaturalRows(lib, s, i) == ListLength(lib, s, i) > 0
    ensures NaturalRows(lib, s, i) > 0
  {
    var w := s.windows[i];
    if !w.isProcs && Items(lib, w) != [] {
      TuiRuns.RowCount(Items(lib, w), Tree(w));
      FlatCount(Items(lib, w));
    }
  }

  lemma {:induction false} FlatCount(items: seq<Node>)
    ensures CountRows(items, false) == |items|
  {
    if items != [] {
      FlatCount(items[1..]);
    }
  }

  lemma SelectionsExist(lib: Lib, w: TuiRuns.World)
    requires TuiRuns.Inv(lib, w)
    ensures SelectionExists(lib, w.ui)
  {
    forall i: nat | i < |w.ui.windows|
      ensures Drawable(lib, w.ui, i)
    {
      NaturalIsListLength(lib, w.ui, i);
      assert TuiRuns.SelInRange(lib, w.ui.windows[i]);
    }
  }

  // ---------- Line counts ----------

  /** Rows a drawn window actually fills: one for a message, its whole body for a list. */
  function Filled(lib: Lib, s: State, p: Plan, i: nat): nat
    requires i < |s.windows| && i < |p.body|
  {
    if Lists(lib, s, i) then p.body[i] else 1
  }

  lemma SectionLength(lib: Lib, s: State, p: Plan, height: int, i: nat)
    requires Fitted(s, p) && i < |s.windows| && SelectionExists(lib, s)
    requires PlanInput(lib, s, height).Valid() && GoodPlan(PlanInput(lib, s, height), p)
    ensures |Section(lib, s, i, p.body[i], IsHidden(s, p, i))|
            == (if IsHidden(s, p, i) then 1 else 2 + Filled(lib, s, p, i))
               + if EntersFilter(lib, s, i, IsHidden(s, p, i)) then 1 else 0
    ensures !IsHidden(s, p, i) ==> 1 <= Filled(lib, s, p, i) <= p.body[i]
    ensures !IsHidden(s, p, i) && Lists(lib, s, i) ==>
              Row(i, Selection(s, i)) in Section(lib, s, i, p.body[i], false)
  {
    var inp := PlanInput(lib, s, height);
    NaturalIsListLength(lib, s, i);
    assert Drawable(lib, s, i);
    if !IsHidden(s, p, i) {
      BodyWithinBounds(inp, p, i);
      if Lists(lib, s, i) {
        BodyOfList(i, ListLength(lib, s, i), Selection(s, i), p.body[i]);
      }
    }
  }

  lemma BodyOfList(win: nat, total: nat, selected: nat, visible: nat)
    requires selected < total && FloorRows(total) <= visible <= total
    ensures |BodyLines(win, total, selected, visible)| == visible
    ensures Row(win, selected) in BodyLines(win, total, selected, visible)
  {
    var sc := ScrollTo(total, selected, visible);
    if visible < total {
      ThreeLinesScroll(total, selected, visible);
      assert |BodyLines(0, total, selected, visible)| == visible;
    }
    assert RowLines(win, sc.start, sc.limit)[selected - sc.start] == Row(win, selected);
  }

  /** What the windows fill, plus the line of a filter being typed in window `typing`. */
  lemma {:induction false} StackLength(parts: seq<seq<Line>>, filled: seq<nat>, hidden: seq<bool>, typing: int, k: nat)
    requires |parts| == |filled| == |hidden| && k <= |parts|
    requires forall i | 0 <= i < |parts| ::
               |parts[i]| == (if hidden[i] then 1 else 2 + filled[i]) + (if i == typing then 1 else 0)
    ensures |Stack(parts, k)| == Cost(filled, hidden, k) + if 0 <= typing < k then 1 else 0
  {
    if k > 0 {
      StackLength(parts, filled, hidden, typing, k - 1);
    }
  }

  /** The window in which a filter is being typed, or -1. */
  function TypingIn(lib: Lib, s: State, p: Plan): int
    requires Fitted(s, p)
  {
    if 0 < s.focus <= |s.windows| && EntersFilter(lib, s, s.focus - 1, IsHidden(s, p, s.focus - 1))
    then s.focus - 1 else -1
  }

  function FilledRows(lib: Lib, s: State, p: Plan): seq<nat>
    requires Fitted(s, p)
  {
    seq(|s.windows|, i requires 0 <= i < |s.windows| => Filled(lib, s, p, i))
  }

  function HiddenWindows(s: State, p: Plan): seq<bool>
    requires Fitted(s, p)
  {
    seq(|s.windows|, i requires 0 <= i < |s.windows| => IsHidden(s, p, i))
  }

  /** The lines that the windows fill, without a filter entry. */
  function FilledCost(lib: Lib, s: State, p: Plan): nat
    requires Fitted(s, p)
  {
    TotalCost(FilledRows(lib, s, p), HiddenWindows(s, p))
  }

  /** The stack is exactly as long as what its windows fill, and a line more for a filter
      entry; and they fill no more than the plan counts. */
  lemma RenderedLength(lib: Lib, s: State, p: Plan, height: int)
    requires Fitted(s, p) && SelectionExists(lib, s)
    requires PlanInput(lib, s, height).Valid() && GoodPlan(PlanInput(lib, s, height), p)
    ensures |Stack(Parts(lib, s, p), |s.windows|)| == FilledCost(lib, s, p) + if TypingIn(lib, s, p) >= 0 then 1 else 0
    ensures FilledCost(lib, s, p) <= PlanCost(PlanInput(lib, s, height), p)
  {
    var n, typing := |s.windows|, TypingIn(lib, s, p);
    var hidden, filled := HiddenWindows(s, p), FilledRows(lib, s, p);
    forall i: nat | i < n
      ensures |Parts(lib, s, p)[i]| == (if hidden[i] then 1 else 2 + filled[i]) + (if i == typing then 1 else 0)
      ensures hidden[i] || filled[i] <= p.body[i]
    {
      SectionLength(lib, s, p, height, i);
    }
    StackLength(Parts(lib, s, p), filled, hidden, typing, n);
    assert hidden == Hidden(PlanInput(lib, s, height).collapsed, p.auto);
    CostMonotone(filled, hidden, p.body, hidden, n, -1);
  }

  /** Each part is found whole in the stack, where the parts before it end. */
  lemma {:induction false} PartWithin(parts: seq<seq<Line>>, i: nat, k: nat)
    requires i < k <= |parts|
    ensures Stack(parts, i) + parts[i] <= Stack(parts, k)
    decreases k
  {
    if i < k - 1 {
      PartWithin(parts, i, k - 1);
    }
  }

  // ---------- The whole sidebar ----------

  /** In every reachable state, for every height: if some way of collapsing all but the
      focused window fits and no filter is being typed, the sidebar is exactly `height`
      lines, every junction row is its window's underline, and every list that is drawn
      shows its selected row. */
  lemma WholeSidebar(lib: Lib, start: TuiRuns.World, events: seq<TuiRuns.Event>, height: int, p: Plan)
    requires TuiRuns.Inv(lib, start)
    requires var s := TuiRuns.Run(lib, start, events).ui;
             s.windows != [] && GoodPlan(PlanInput(lib, s, height), p)
    ensures var s := TuiRuns.Run(lib, start, events).ui;
            && Fitted(s, p)
            && (forall i: nat | i < |s.windows| && !IsHidden(s, p, i) :: DrawnWell(lib, s, p, height, i))
            && (MinCost(PlanInput(lib, s, height)) <= height && !s.filtering ==> |Render(lib, s, p, height)| == height)
  {
    TuiRuns.RunKeepsInv(lib, start, events);
    SidebarOf(lib, TuiRuns.Run(lib, start, events), height, p);
  }

  lemma SidebarOf(lib: Lib, w: TuiRuns.World, height: int, p: Plan)
    requires TuiRuns.Inv(lib, w)
    requires w.ui.windows != [] && GoodPlan(PlanInput(lib, w.ui, height), p)
    ensures var s := w.ui;
            && Fitted(s, p)
            && (forall i: nat | i < |s.windows| && !IsHidden(s, p, i) :: DrawnWell(lib, s, p, height, i))
            && (MinCost(PlanInput(lib, s, height)) <= height && !s.filtering ==> |Render(lib, s, p, height)| == height)
  {
    var s := w.ui;
    SelectionsExist(lib, w);
    forall i: nat | i < |s.windows| && !IsHidden(s, p, i)
      ensures DrawnWell(lib, s, p, height, i)
    {
      DrawnWindow(lib, s, p, height, i);
    }
    RenderedLength(lib, s, p, height);
    FitsIffMinimumFits(PlanInput(lib, s, height), p);
  }

  /** The junction row is the window's underline, and a list shows its selected row. */
  ghost predicate DrawnWell(lib: Lib, s: State, p: Plan, height: int, i: nat)
    requires Fitted(s, p) && i < |s.windows|
  {
    var lines, junction := Render(lib, s, p, height), Junction(lib, s, p, i);
    && 0 <= junction < |lines| && lines[junction] == Underline(i)
    && (Lists(lib, s, i) ==> Row(i, Selection(s, i)) in lines)
  }

  lemma DrawnWindow(lib: Lib, s: State, p: Plan, height: int, i: nat)
    requires Fitted(s, p) && SelectionExists(lib, s) && i < |s.windows| && !IsHidden(s, p, i)
    requires PlanInput(lib, s, height).Valid() && GoodPlan(PlanInput(lib, s, height), p)
    ensures DrawnWell(lib, s, p, height, i)
  {
    SectionLength(lib, s, p, height, i);
    UnderlineSecond(lib, s, i, p.body[i]);
    var parts := Parts(lib, s, p);
    PartWithin(parts, i, |parts|);
    FoundInRender(parts, i, height, 1);
    if Lists(lib, s, i) {
      var k :| 0 <= k < |parts[i]| && parts[i][k] == Row(i, Selection(s, i));
      FoundInRender(parts, i, height, k);
    }
  }

  lemma FoundInRender(parts: seq<seq<Line>>, i: nat, height: int, k: nat)
    requires i < |parts| && k < |parts[i]|
    ensures var lines, at := Padded(Stack(parts, |parts|), height), |Stack(parts, i)| + k;
            at < |lines| && lines[at] == parts[i][k]
  {
    PartWithin(parts, i, |parts|);
    assert (Stack(parts, i) + parts[i])[|Stack(parts, i)| + k] == parts[i][k];
  }

  lemma UnderlineSecond(lib: Lib, s: State, i: nat, body: nat)
    requires i < |s.windows|
    ensures var section := Section(lib, s, i, body, false); |section| > 1 && section[1] == Underline(i)
  {
  }

  /** What a drawn window tells: that it is loading, failed to list, has nothing, or takes a
      filter. */
  lemma SectionTells(lib: Lib, s: State, i: nat, body: nat)
    requires i < |s.windows|
    ensures var lines, w := Section(lib, s, i, body, false), s.windows[i];
            var first := s.loading && w.nodes.None?;
            && (Loading(i) in lines <==> !w.isProcs && first)
            && (Failed(i) in lines <==> !w.isProcs && !first && w.failed)
            && (Nothing(i) in lines <==>
                  if w.isProcs then s.procs == [] else !first && !w.failed && Items(lib, w) == [])
            && (FilterEntry(i) in lines <==>
                  s.filtering && s.focus == i + 1 && !w.isProcs && !first && !w.failed && Items(lib, w) != [])
  {
    if Lists(lib, s, i) {
      OnlyRowsAndHints(i, ListLength(lib, s, i), Selection(s, i), body);
    }
  }

  lemma OnlyRowsAndHints(win: nat, total: nat, selected: nat, visible: nat)
    ensures forall line | line in BodyLines(win, total, selected, visible) ::
              line.Row? || line.MoreAbove? || line.MoreBelow?
  {
    var sc := ScrollTo(total, selected, visible);
    assert forall line :: line in RowLines(win, sc.start, sc.limit) ==> line.Row?;
  }

  /** The column holds the sections in order, one margin after each but the last, and nothing
      but padding after that. */
  lemma ColumnHoldsSections(lib: Lib, s: State, p: Plan, height: int, i: nat, k: nat)
    requires Fitted(s, p) && i < |s.windows|
    ensures var lines, parts := Render(lib, s, p, height), Parts(lib, s, p);
            var at, end := |Stack(parts, i)|, |Stack(parts, i)| + |parts[i]|;
            && (k < |parts[i]| ==> at + k < |lines| && lines[at + k] == parts[i][k])
            && (i + 1 < |parts| ==> end < |lines| && lines[end] == Margin && |Stack(parts, i + 1)| == end + 1)
            && (i + 1 == |parts| ==> end <= |lines|)
            && (i + 1 == |parts| && end <= k < |lines| ==> lines[k] == Padding)
            && (i == 0 ==> at == 0)
  {
    var parts := Parts(lib, s, p);
    PartWithin(parts, i, |parts|);
    if k < |parts[i]| {
      FoundInRender(parts, i, height, k);
    }
    if i + 1 < |parts| {
      MarginWithin(parts, i, |parts|);
    }
  }

  lemma {:induction false} MarginWithin(parts: seq<seq<Line>>, i: nat, k: nat)
    requires i + 1 < |parts| && i < k <= |parts|
    ensures Stack(parts, i) + parts[i] + [Margin] <= Stack(parts, k)
    decreases k
  {
    if i < k - 1 {
      MarginWithin(parts, i, k - 1);
    }
  }

  /** The planner never hides the window that has the focus. */
  lemma FocusedIsDrawn(lib: Lib, s: State, height: int, p: Plan)
    requires SelectionExists(lib, s) && 0 < s.focus <= |s.windows| && !s.windows[s.focus - 1].collapsed
    requires PlanInput(lib, s, height).Valid() && GoodPlan(PlanInput(lib, s, height), p)
    ensures Underline(s.focus - 1) in Render(lib, s, p, height)
  {
    FocusedGetsMost(PlanInput(lib, s, height), p);
    DrawnWindow(lib, s, p, height, s.focus - 1);
  }

  /** While a filter is typed the sidebar has one line more than it should if and only if the
      windows already fill the height; otherwise it has the height. */
  lemma FilterEntryOverflows(lib: Lib, s: State, height: int, p: Plan, i: nat)
    requires Fitted(s, p) && SelectionExists(lib, s) && i < |s.windows| && EntersFilter(lib, s, i, IsHidden(s, p, i))
    requires PlanInput(lib, s, height).Valid() && GoodPlan(PlanInput(lib, s, height), p)
    requires MinCost(PlanInput(lib, s, height)) <= height
    ensures |Render(lib, s, p, height)| == height + 1 <==> FilledCost(lib, s, p) == height
    ensures |Render(lib, s, p, height)| == height <==> FilledCost(lib, s, p) < height
  {
    RenderedLength(lib, s, p, height);
    FitsIffMinimumFits(PlanInput(lib, s, height), p);
  }

  /** A shell with one window of one object, just listed. */
  const ONE_WINDOW := Window(false, false, None, false, 0, "", 0, false, false)

  function JustListed(node: Node, prompt: Prompt, focus: nat, filtering: bool): State {
    Initial([ONE_WINDOW], prompt).(windows := [ONE_WINDOW.(nodes := Some([node]))], loading := false, focus := focus,
                                   filtering := filtering)
  }

  function FilterEvents(node: Node, prompt: Prompt): (e: seq<TuiRuns.Event>)
    ensures |e| == 3
  {
    [TuiRuns.Listing([Some([node])], [false]), TuiRuns.Press(ShiftTab, prompt), TuiRuns.Press(Runes("/"), prompt)]
  }

  lemma OneItem(lib: Lib, node: Node, w: Window)
    requires lib.Valid() && w == ONE_WINDOW.(nodes := Some([node]))
    ensures |Items(lib, w)| == 1 && |Rows(lib, w)| == 1
  {
    var items := Items(lib, w);
    assert multiset(items) == multiset([node]);
    assert |items| == |multiset(items)| == |multiset([node])|;
    TuiRuns.RowCount(items, false);
    FlatCount(items);
  }

  lemma ListsOne(lib: Lib, node: Node, prompt: Prompt)
    requires lib.Valid()
    ensures ObjectsDone(lib, Initial([ONE_WINDOW], prompt), [Some([node])], [false]) ==
            JustListed(node, prompt, 0, false)
  {
    var listed := ONE_WINDOW.(nodes := Some([node]));
    OneItem(lib, node, listed);
    assert Refreshed(lib, ONE_WINDOW, 0, [Some([node])], [false]) == listed;
  }

  lemma FocusesOne(lib: Lib, node: Node, prompt: Prompt)
    ensures PressKey(lib, JustListed(node, prompt, 0, false), ShiftTab, prompt) == JustListed(node, prompt, 1, false)
    ensures PressKey(lib, JustListed(node, prompt, 1, false), Runes("/"), prompt) == JustListed(node, prompt, 1, true)
  {
    TuiRuns.NextFocusIs(JustListed(node, prompt, 0, false), false);
  }

  lemma StepsOfExample(lib: Lib, node: Node, prompt: Prompt, w: TuiRuns.World)
    requires lib.Valid() && TuiRuns.Inv(lib, w) && !w.ui.loading
    ensures w.ui == JustListed(node, prompt, 0, false) ==>
              TuiRuns.Step(lib, w, TuiRuns.Press(ShiftTab, prompt)) == w.(ui := JustListed(node, prompt, 1, false))
    ensures w.ui == JustListed(node, prompt, 1, false) ==>
              TuiRuns.Step(lib, w, TuiRuns.Press(Runes("/"), prompt)) == w.(ui := JustListed(node, prompt, 1, true))
  {
    FocusesOne(lib, node, prompt);
  }

  lemma FilterEventsRun(lib: Lib, node: Node, prompt: Prompt)
    requires lib.Valid()
    ensures var start := TuiRuns.Start([ONE_WINDOW], prompt);
            && TuiRuns.Inv(lib, start)
            && TuiRuns.Run(lib, start, FilterEvents(node, prompt)).ui == JustListed(node, prompt, 1, true)
  {
    var start := TuiRuns.Start([ONE_WINDOW], prompt);
    var list := TuiRuns.Listing([Some([node])], [false]);
    var tab, slash := TuiRuns.Press(ShiftTab, prompt), TuiRuns.Press(Runes("/"), prompt);
    TuiRuns.RunsHaveInv(lib, [ONE_WINDOW], prompt, []);
    ListsOne(lib, node, prompt);
    RunThree(lib, start, list, tab, slash);
    var listed := TuiRuns.Step(lib, start, list);
    StepsOfExample(lib, node, prompt, listed);
    StepsOfExample(lib, node, prompt, TuiRuns.Step(lib, listed, tab));
  }

  lemma RunThree(lib: Lib, w: TuiRuns.World, a: TuiRuns.Event, b: TuiRuns.Event, c: TuiRuns.Event)
    requires TuiRuns.Inv(lib, w)
    ensures TuiRuns.Inv(lib, TuiRuns.Step(lib, w, a)) && TuiRuns.Inv(lib, TuiRuns.Step(lib, TuiRuns.Step(lib, w, a), b))
    ensures TuiRuns.Run(lib, w, [a, b, c]) == TuiRuns.Step(lib, TuiRuns.Step(lib, TuiRuns.Step(lib, w, a), b), c)
  {
    TuiRuns.RunCons(lib, w, a, [b, c]);
    TuiRuns.RunCons(lib, TuiRuns.Step(lib, w, a), b, [c]);
    TuiRuns.RunCons(lib, TuiRuns.Step(lib, TuiRuns.Step(lib, w, a), b), c, []);
    assert [a] + [b, c] == [a, b, c] && [b] + [c] == [b, c] && [c] + [] == [c];
  }

  /** The overflow happens: one object, a height of three, the focus on it, and a slash. */
  lemma FilterEntryOverflowOccurs(lib: Lib, node: Node, prompt: Prompt)
    requires lib.Valid()
    ensures var s := TuiRuns.Run(lib, TuiRuns.Start([ONE_WINDOW], prompt), FilterEvents(node, prompt)).ui;
            var p := Plan([1], [false]);
            Fitted(s, p) && GoodPlan(PlanInput(lib, s, 3), p) && |Render(lib, s, p, 3)| == 4
  {
    var s, p := JustListed(node, prompt, 1, true), Plan([1], [false]);
    FilterEventsRun(lib, node, prompt);
    TuiRuns.RunKeepsInv(lib, TuiRuns.Start([ONE_WINDOW], prompt), FilterEvents(node, prompt));
    SelectionsExist(lib, TuiRuns.Run(lib, TuiRuns.Start([ONE_WINDOW], prompt), FilterEvents(node, prompt)));
    OneItem(lib, node, s.windows[0]);
    var inp := PlanInput(lib, s, 3);
    assert inp == Input([1], [false], 0, 3);
    CostOfOne(1, false);
    assert OnlyFocused(inp) == [false] && Floors(inp.natural) == [1];
    assert FilledRows(lib, s, p) == [1] && HiddenWindows(s, p) == [false];
    FilterEntryOverflows(lib, s, 3, p, 0);
  }

  lemma CostOfOne(body: nat, hidden: bool)
    ensures TotalCost([body], [hidden]) == if hidden then 1 else 2 + body
  {
    assert Cost([body], [hidden], 0) == 0;
  }

  // ---------- The drawing loops ----------

  /** The hints and rows of one list, line by line. */
  method WriteBody(win: nat, total: nat, selected: nat, visible: nat) returns (lines: seq<Line>)
    ensures lines == BodyLines(win, total, selected, visible)
  {
    lines := [];
    var (start, end) := ComputeWindow(total, selected, visible);
    if start > 0 {
      lines := [MoreAbove(win, start)];
      start := start + 1;
      if start > selected {
        start := selected;
      }
    }
    var bottomHint := end < total;
    var limit: int := end;
    if bottomHint {
      limit := end - 1;
      if limit < start {
        limit := start;
      }
    }
    ghost var above := lines;
    var ri := start;
    while ri < limit
      invariant start <= ri && (ri <= limit || ri == start)
      invariant lines == above + RowLines(win, start, ri)
    {
      lines := lines + [Row(win, ri)];
      ri := ri + 1;
    }
    assert lines == above + RowLines(win, start, limit);
    if bottomHint {
      lines := lines + [MoreBelow(win, total - limit)];
    }
  }

  method WriteSection(lib: Lib, s: State, i: nat, body: nat, hidden: bool) returns (lines: seq<Line>)
    requires i < |s.windows|
    ensures lines == Section(lib, s, i, body, hidden)
  {
    var listed, typing := Lists(lib, s, i), EntersFilter(lib, s, i, hidden);
    lines := [Title(i)];
    if hidden {
      return;
    }
    lines := lines + [Underline(i)];
    if !listed {
      lines := lines + [Message(s, i)];
      return;
    }
    var rows := WriteBody(i, ListLength(lib, s, i), Selection(s, i), body);
    lines := lines + rows;
    if typing {
      lines := lines + [FilterEntry(i)];
    }
  }

  method CountNaturalRows(lib: Lib, s: State, i: nat) returns (rows: nat)
    requires i < |s.windows|
    ensures rows == NaturalRows(lib, s, i)
  {
    var w := s.windows[i];
    if w.isProcs {
      return if |s.procs| == 0 then 1 else |s.procs|;
    }
    if s.loading && w.nodes.None? {
      return 1;
    }
    var items := Items(lib, w);
    if |items| == 0 {
      return 1;
    }
    if Tree(w) {
      rows := 0;
      for k := 0 to |items|
        invariant rows + CountRows(items[k..], true) == CountRows(items, true)
      {
        assert items[k..][1..] == items[k + 1..];
        rows := rows + 1;
        rows := rows + |items[k].children|;
      }
    } else {
      rows := |items|;
    }
  }

  method NaturalHeights(lib: Lib, s: State) returns (natural: seq<nat>)
    ensures |natural| == |s.windows| && forall j: nat | j < |natural| :: natural[j] == NaturalRows(lib, s, j)
  {
    natural := [];
    for i := 0 to |s.windows|
      invariant |natural| == i && forall j: nat | j < i :: natural[j] == NaturalRows(lib, s, j)
    {
      var rows := CountNaturalRows(lib, s, i);
      natural := natural + [rows];
    }
  }

  method WriteParts(lib: Lib, s: State, plan: Plan) returns (parts: seq<seq<Line>>)
    requires Fitted(s, plan)
    ensures parts == Parts(lib, s, plan)
  {
    parts := [];
    for i := 0 to |s.windows|
      invariant parts == Parts(lib, s, plan)[..i]
    {
      var section := WriteSection(lib, s, i, plan.body[i], IsHidden(s, plan, i));
      parts := parts + [section];
    }
  }

  /** Put the sections below one another, noting where each underline falls. */
  method StackParts(parts: seq<seq<Line>>, hidden: seq<bool>) returns (lines: seq<Line>, junctions: seq<int>)
    requires |hidden| == |parts|
    ensures lines == Stack(parts, |parts|)
    ensures |junctions| == |parts|
    ensures forall j: nat | j < |junctions| :: junctions[j] == JunctionRow(parts, hidden[j], j)
  {
    lines, junctions := [], [];
    for i := 0 to |parts|
      invariant lines == Stack(parts, i)
      invariant |junctions| == i && forall j: nat | j < i :: junctions[j] == JunctionRow(parts, hidden[j], j)
    {
      junctions := junctions + [if hidden[i] then -1 else |lines| + 1];
      lines := lines + parts[i];
      if i < |parts| - 1 {
        lines := lines + [Margin];
      }
    }
  }

  method Pad(drawn: seq<Line>, height: int) returns (lines: seq<Line>)
    ensures lines == Padded(drawn, height)
  {
    lines := drawn;
    while |lines| < height
      invariant |drawn| <= |lines| && (|lines| <= height || lines == drawn)
      invariant lines == drawn + seq(|lines| - |drawn|, _ => Padding)
    {
      lines := lines + [Padding];
    }
  }

  /** The whole column with its junction rows: plan, draw every window, pad. */
  method RenderSidebar(lib: Lib, s: State, height: int) returns (lines: seq<Line>, junctions: seq<int>, plan: Plan)
    ensures PlanInput(lib, s, height).Valid() && GoodPlan(PlanInput(lib, s, height), plan) && Fitted(s, plan)
    ensures lines == Render(lib, s, plan, height)
    ensures |junctions| == |s.windows| && forall i: nat | i < |junctions| :: junctions[i] == Junction(lib, s, plan, i)
  {
    var natural := NaturalHeights(lib, s);
    var inp := PlanInput(lib, s, height);
    assert natural == inp.natural;
    plan := MakePlan(Input(natural, inp.collapsed, inp.focused, height));
    if |s.windows| == 0 {
      lines, junctions := [Notice], [];
    } else {
      var parts := WriteParts(lib, s, plan);
      lines, junctions := StackParts(parts, seq(|s.windows|, i requires 0 <= i < |s.windows| => IsHidden(s, plan, i)));
    }
    lines := Pad(lines, height);
  }
}
