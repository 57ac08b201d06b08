/** Laws over every run of the AI shell: interleavings of keys, listings, launches, and the
    messages that background goroutines send. */
module TuiRuns {
  import opened Text
  import opened Tui
  import opened Wrappers
  import Seqs

  // ---------- The world around the state ----------

  /** `spawned` goroutines have not yet created their context; `running` ones have;
      `cancelMail` holds (process id, context) pairs and `doneMail` ids on their way. */
  datatype World = World(ui: State, spawned: set<nat>, running: set<nat>, cancelMail: set<(nat, nat)>,
                         doneMail: set<nat>)

  datatype Event =
    | Press(key: Key, typed: Prompt)
    | EditPrompt(prompt: Prompt)
    | Launch(command: string)
    | Reload
    | Listing(lists: seq<Option<seq<Node>>>, errs: seq<bool>)
    | Quit
    | SendCancel(id: nat)
    | DeliverCancel(id: nat, ctx: nat)
    | Finish(id: nat)
    | DeliverDone(id: nat)

  /** One step; a message or goroutine event that is not possible changes nothing. */
  function Step(lib: Lib, w: World, e: Event): World
    requires w.ui.procs != [] ==> w.ui.procSel < |w.ui.procs|
    requires w.ui.procWin < |w.ui.windows|
  {
    match e
    case Press(key, typed) =>
      var ui := PressKey(lib, w.ui, key, typed);
      w.(ui := ui, spawned := if ui.nextId > w.ui.nextId then w.spawned + {w.ui.nextId} else w.spawned)
    case EditPrompt(prompt) => w.(ui := w.ui.(prompt := prompt))
    case Launch(command) => w.(ui := StartProcess(w.ui, command), spawned := w.spawned + {w.ui.nextId})
    case Reload => w.(ui := w.ui.(loading := true))
    case Listing(lists, errs) => w.(ui := ObjectsDone(lib, w.ui, lists, errs))
    case Quit => w.(ui := KillAll(w.ui))
    case SendCancel(id) =>
      if id in w.spawned
      then w.(spawned := w.spawned - {id}, running := w.running + {id}, cancelMail := w.cancelMail + {(id, id)})
      else w
    case DeliverCancel(id, ctx) =>
      if (id, ctx) in w.cancelMail
      then w.(ui := ReceiveCancel(w.ui, id, ctx), cancelMail := w.cancelMail - {(id, ctx)})
      else w
    case Finish(id) =>
      if id in w.running
      then w.(running := w.running - {id}, doneMail := w.doneMail + {id},
              ui := w.ui.(cancelled := w.ui.cancelled + {id}))
      else w
    case DeliverDone(id) =>
      if id in w.doneMail then w.(ui := ReceiveDone(w.ui, id), doneMail := w.doneMail - {id}) else w
  }

  function Run(lib: Lib, w: World, events: seq<Event>): World
    requires Inv(lib, w)
    decreases |events|
  {
    if events == [] then w
    else
      StepKeepsInv(lib, w, events[0]);
      Run(lib, Step(lib, w, events[0]), events[1..])
  }

  // ---------- Invariants ----------

  ghost predicate SelInRange(lib: Lib, w: Window) {
    w.sel == 0 || w.sel < |Rows(lib, w)|
  }

  ghost predicate PaneInv(lib: Lib, s: State) {
    && s.focus <= |s.windows|
    && (forall i | 0 <= i < |s.windows| :: SelInRange(lib, s.windows[i]))
  }

  /** The Processes window is last, and there exactly when there is a process; it is shown
      exactly while it has the focus; the selected process exists. */
  ghost predicate ProcPaneInv(s: State) {
    && -1 <= s.procWin
    && (s.procWin >= 0 <==> s.procs != [])
    && (s.procWin >= 0 ==> s.procWin == |s.windows| - 1)
    && (forall i | 0 <= i < |s.windows| :: s.windows[i].isProcs <==> i == s.procWin)
    && (s.procs != [] ==> s.procSel < |s.procs|)
    && s.focus <= |s.windows|
    && (s.inProcView <==> s.procWin >= 0 && s.focus == s.procWin + 1)
  }

  /** Ids increase along the list; a stored cancel function is the process's own. */
  ghost predicate ListInv(procs: seq<Proc>, nextId: nat) {
    && (forall i, j | 0 <= i < j < |procs| :: procs[i].id < procs[j].id)
    && (forall i | 0 <= i < |procs| ::
          procs[i].id < nextId && (procs[i].cancel.Some? ==> procs[i].cancel.value == procs[i].id))
  }

  predicate Awaited(w: World, id: nat) {
    id in w.spawned || (id, id) in w.cancelMail
  }

  predicate Listed(procs: seq<Proc>, id: nat) {
    FindProc(procs, id) < |procs|
  }

  /** The mail is consistent, and no launched process is out of reach. */
  ghost predicate ReachInv(w: World) {
    && (forall id | id in w.spawned :: id < w.ui.nextId)
    && (forall m | m in w.cancelMail :: m.0 == m.1 < w.ui.nextId)
    && (forall id | id in w.doneMail :: id in w.ui.cancelled)
    && (forall i | 0 <= i < |w.ui.procs| :: NeverLost(w, w.ui.procs[i]))
    && (forall id: nat | id < w.ui.nextId :: Listed(w.ui.procs, id) || id in w.ui.cancelled || Awaited(w, id))
  }

  /** A listed process can be cancelled now, or its cancel function is still to arrive; a
      finished one has ended its context itself. */
  ghost predicate NeverLost(w: World, p: Proc) {
    && (p.cancel.Some? || Awaited(w, p.id))
    && (p.done ==> p.id in w.ui.cancelled)
  }

  ghost predicate Inv(lib: Lib, w: World) {
    PaneInv(lib, w.ui) && ProcPaneInv(w.ui) && ListInv(w.ui.procs, w.ui.nextId) && ReachInv(w)
  }

  // ---------- Rows and selections ----------

  lemma FirstNamedInRange(rows: seq<SidebarRow>, name: string, i: nat)
    requires i <= |rows|
    ensures FirstNamed(rows, name, i) == 0 || FirstNamed(rows, name, i) < |rows|
    decreases |rows| - i
  {
  }

  lemma {:induction false} RowCount(items: seq<Node>, tree: bool)
    ensures |Flatten(items, tree)| == CountRows(items, tree)
  {
    if items != [] {
      RowCount(items[1..], tree);
    }
  }

  lemma {:induction false} CountRowsSplit(a: seq<Node>, n: Node, b: seq<Node>, tree: bool)
    ensures CountRows(a + [n] + b, tree) == CountRows([n], tree) + CountRows(a + b, tree)
  {
    if a == [] {
      assert [n] + b == a + [n] + b && (a + [n] + b)[1..] == b && a + b == b && [n][1..] == [];
    } else {
      assert (a + [n] + b)[1..] == a[1..] + [n] + b && (a + b)[1..] == a[1..] + b;
      CountRowsSplit(a[1..], n, b, tree);
    }
  }

  lemma WithoutOne(xs: seq<Node>, ys: seq<Node>, i: nat)
    requires xs != [] && i < |ys| && ys[i] == xs[0] && multiset(xs) == multiset(ys)
    ensures multiset(xs[1..]) == multiset(ys[..i] + ys[i + 1..])
  {
    Seqs.Around(xs, 0);
    Seqs.Around(ys, i);
    Seqs.Empty(xs[1..]);
  }

  lemma CountRowsAround(xs: seq<Node>, i: nat, tree: bool)
    requires i < |xs|
    ensures CountRows(xs, tree) == CountRows([xs[i]], tree) + CountRows(xs[..i] + xs[i + 1..], tree)
  {
    CountRowsSplit(xs[..i], xs[i], xs[i + 1..], tree);
    Seqs.Around(xs, i);
  }

  /** The number of rows depends on which nodes there are, not on how they are sorted. */
  lemma {:induction false} RowCountIgnoresOrder(xs: seq<Node>, ys: seq<Node>, tree: bool)
    requires multiset(xs) == multiset(ys)
    ensures CountRows(xs, tree) == CountRows(ys, tree)
  {
    if xs == [] {
      assert |multiset(ys)| == 0;
    } else {
      assert xs[0] in multiset(ys);
      var i :| 0 <= i < |ys| && ys[i] == xs[0];
      WithoutOne(xs, ys, i);
      RowCountIgnoresOrder(xs[1..], ys[..i] + ys[i + 1..], tree);
      CountRowsAround(ys, i, tree);
      CountRowsAround(xs, 0, tree);
      Seqs.Empty(xs[1..]);
    }
  }

  /** Sorting differently leaves as many rows to select from. */
  lemma SortKeepsRowCount(lib: Lib, w: Window, mode: nat)
    requires lib.Valid()
    ensures |Rows(lib, w.(sortIdx := mode))| == |Rows(lib, w)|
  {
    RowCount(Items(lib, w), Tree(w));
    RowCount(Items(lib, w.(sortIdx := mode)), Tree(w));
    RowCountIgnoresOrder(Items(lib, w.(sortIdx := mode)), Items(lib, w), Tree(w));
  }

  // ---------- What a tree toggle selects ----------

  /** The search finds the first row of that name, or falls back on row zero. */
  lemma {:induction false} FirstNamedIsFirst(rows: seq<SidebarRow>, name: string, i: nat)
    requires i <= |rows|
    ensures var f := FirstNamed(rows, name, i);
            if exists k :: i <= k < |rows| && rows[k].node.name == name
            then i <= f < |rows| && rows[f].node.name == name && forall k | i <= k < f :: rows[k].node.name != name
            else f == 0
    decreases |rows| - i
  {
    if i < |rows| && rows[i].node.name != name {
      FirstNamedIsFirst(rows, name, i + 1);
    }
  }

  /** A selected name that is still there after a toggle is still the selected name. */
  lemma ToggleFollowsName(lib: Lib, w: Window)
    requires SelectedName(lib, w) != ""
    requires var rows := Rows(lib, ToggleTree(lib, w));
             exists k :: 0 <= k < |rows| && rows[k].node.name == SelectedName(lib, w)
    ensures SelectedName(lib, ToggleTree(lib, w)) == SelectedName(lib, w)
  {
    var t, name := ToggleTree(lib, w), SelectedName(lib, w);
    if w.hierarchical {
      FirstNamedIsFirst(Rows(lib, t), name, 0);
    }
  }

  /** The row of the `i`th top-level node. */
  function TopRow(items: seq<Node>, tree: bool, i: nat): nat
    requires i <= |items|
  {
    CountRows(items[..i], tree)
  }

  lemma {:induction false} TopRowShowsNode(items: seq<Node>, tree: bool, i: nat)
    requires i < |items|
    ensures TopRow(items, tree, i) < |Flatten(items, tree)|
    ensures Flatten(items, tree)[TopRow(items, tree, i)] == SidebarRow(items[i], "")
  {
    if i > 0 {
      TopRowShowsNode(items[1..], tree, i - 1);
      assert items[..i][1..] == items[1..][..i - 1];
    }
  }

  /** A selected top-level node stays selected over a toggle if and only if no row before its
      new one has its name. The source promises to follow the node itself. */
  lemma ToggleKeepsNodeIff(lib: Lib, w: Window, i: nat)
    requires w.hierarchical && i < |Items(lib, w)| && Items(lib, w)[i].name != ""
    requires w.sel == TopRow(Items(lib, w), Tree(w), i)
    ensures var t := ToggleTree(lib, w);
            var row := TopRow(Items(lib, t), Tree(t), i);
            && row < |Rows(lib, t)| && Rows(lib, t)[row].node == Items(lib, w)[i]
            && (t.sel == row <==> forall k | 0 <= k < row :: Rows(lib, t)[k].node.name != Items(lib, w)[i].name)
  {
    var items, tree := Items(lib, w), !Tree(w);
    TopRowShowsNode(items, Tree(w), i);
    TopRowShowsNode(items, tree, i);
    var rows := Flatten(items, tree);
    assert Rows(lib, w.(treeView := !w.treeView)) == rows;
    assert SelectedName(lib, w) == items[i].name;
    FirstIsRowIff(rows, items[i].name, TopRow(items, tree, i));
  }

  lemma FirstIsRowIff(rows: seq<SidebarRow>, name: string, row: nat)
    requires row < |rows| && rows[row].node.name == name
    ensures FirstNamed(rows, name, 0) == row <==> forall k | 0 <= k < row :: rows[k].node.name != name
  {
    FirstNamedIsFirst(rows, name, 0);
  }

  lemma FlattenCons(n: Node, rest: seq<Node>, tree: bool)
    ensures Flatten([n] + rest, tree)
            == [SidebarRow(n, "")] + (if tree then ChildRows(n.children, n.name) else []) + Flatten(rest, tree)
  {
    assert ([n] + rest)[1..] == rest;
  }

  /** A node `a` with a child `b`, and a node `b`, which is selected. */
  function TwoNamedB(tree: bool, sel: nat): Window {
    var a := Node("a", "", [], [Node("b", "child", [], [])]);
    Window(false, true, Some([a, Node("b", "", [], [])]), false, sel, "", 0, tree, false)
  }

  lemma RowsOfTwoNamedB(lib: Lib, tree: bool, sel: nat)
    requires forall s, mode :: lib.sort(s, mode) == s
    ensures var child, b := Node("b", "child", [], []), Node("b", "", [], []);
            var a := Node("a", "", [], [child]);
            Rows(lib, TwoNamedB(tree, sel)) ==
            if tree then [SidebarRow(a, ""), SidebarRow(child, "a"), SidebarRow(b, "")]
            else [SidebarRow(a, ""), SidebarRow(b, "")]
  {
    var child, b := Node("b", "child", [], []), Node("b", "", [], []);
    var a := Node("a", "", [], [child]);
    FlattenCons(a, [b], tree);
    FlattenCons(b, [], tree);
    assert [a] + [b] == [a, b] && [b] + [] == [b];
    assert ChildRows([child], "a") == [SidebarRow(child, "a")];
  }

  /** The promise fails when another node's child has the name: showing the tree moves the
      selection from the node `b` to the child of `a`. */
  lemma ToggleCanLoseNode(lib: Lib)
    requires forall s, mode :: lib.sort(s, mode) == s
    ensures ToggleTree(lib, TwoNamedB(false, 1)) == TwoNamedB(true, 1)
    ensures |Rows(lib, TwoNamedB(false, 1))| == 2 && |Rows(lib, TwoNamedB(true, 1))| == 3
    ensures Rows(lib, TwoNamedB(false, 1))[1] == SidebarRow(Node("b", "", [], []), "")
    ensures Rows(lib, TwoNamedB(true, 1))[1] == SidebarRow(Node("b", "child", [], []), "a")
  {
    RowsOfTwoNamedB(lib, false, 1);
    RowsOfTwoNamedB(lib, true, 1);
    var rows := Rows(lib, TwoNamedB(true, 1));
    assert Rows(lib, TwoNamedB(false, 1).(treeView := true)) == rows;
    FirstNamedIsFirst(rows, "b", 0);
    assert rows[1].node.name == "b" && rows[0].node.name == "a";
  }

  // ---------- Every step keeps the pane invariants ----------

  lemma Remainders(x: nat, n: nat)
    requires x < n
    ensures x % n == x && n % n == 0 && (x + n) % n == x
  {
    Quotients(x, n);
  }

  lemma Quotients(x: nat, n: nat)
    requires x < n
    ensures (x + n) / n == 1
  {
    assert x / n == 0;
  }

  lemma NextFocusIs(s: State, forward: bool)
    requires s.focus <= |s.windows|
    ensures var n, f := |s.windows| + 1, s.focus;
            NextFocus(s, forward) ==
            if forward then if f + 1 == n then 0 else f + 1
            else if f == 0 then n - 1 else f - 1
  {
    var n, f := |s.windows| + 1, s.focus;
    Remainders(if f + 1 < n then f + 1 else 0, n);
    Remainders(if f == 0 then n - 1 else f - 1, n);
  }

  lemma NextFocusTurns(s: State, forward: bool)
    requires s.focus <= |s.windows| && s.windows != []
    ensures var next := NextFocus(s, forward);
            && 0 <= next <= |s.windows| && next != s.focus
            && NextFocus(s.(focus := next), !forward) == s.focus
  {
    NextFocusIs(s, forward);
    NextFocusIs(s.(focus := NextFocus(s, forward)), !forward);
  }

  /** Moving the focus, by what it leaves and where it arrives. */
  lemma CycleFocusCases(s: State, forward: bool)
    requires ProcPaneInv(s) && s.windows != []
    ensures var next, t := NextFocus(s, forward), CycleFocus(s, forward);
            t == if s.inProcView then s.(focus := next, inProcView := false, prompt := s.saved)
                 else if s.procWin >= 0 && next == s.procWin + 1
                 then s.(focus := next, inProcView := true, saved := s.prompt,
                         prompt := s.prompt.(text := s.procs[s.procSel].command))
                 else s.(focus := next)
  {
    NextFocusTurns(s, forward);
  }

  /** What moving the focus changes: the focus, the prompt, and nothing else. */
  lemma CycleFocusFrame(s: State, forward: bool)
    requires ProcPaneInv(s)
    ensures var t := CycleFocus(s, forward);
            && ProcPaneInv(t) && t.windows == s.windows && t.procs == s.procs && t.nextId == s.nextId
            && t.cancelled == s.cancelled
  {
    if s.windows != [] {
      NextFocusTurns(s, forward);
      CycleFocusCases(s, forward);
    }
  }

  ghost predicate PanesOk(lib: Lib, s: State) {
    PaneInv(lib, s) && ProcPaneInv(s)
  }

  lemma SetWindowKeepsPanes(lib: Lib, s: State, i: nat, w: Window)
    requires PanesOk(lib, s) && i < |s.windows|
    requires w.isProcs == s.windows[i].isProcs && SelInRange(lib, w)
    ensures PanesOk(lib, s.(windows := s.windows[i := w]))
  {
  }

  lemma MoveSelKeepsPanes(lib: Lib, s: State, delta: int)
    requires PanesOk(lib, s)
    ensures PanesOk(lib, MoveSel(lib, s, delta))
  {
    if s.FocusedPane() {
      var w := s.windows[s.focus - 1];
      var n := |Rows(lib, w)|;
      if n != 0 {
        SetWindowKeepsPanes(lib, s, s.focus - 1, w.(sel := Clamp(w.sel + delta, 0, n - 1)));
      }
    }
  }

  lemma ToggleKeepsSelection(lib: Lib, w: Window)
    requires SelInRange(lib, w)
    ensures SelInRange(lib, ToggleTree(lib, w))
  {
    var toggled := w.(treeView := !w.treeView);
    var name := SelectedName(lib, w);
    FirstNamedInRange(Rows(lib, toggled), name, 0);
    assert Rows(lib, toggled.(sel := IndexOfRowNamed(Rows(lib, toggled), name))) == Rows(lib, toggled);
  }

  lemma PaneRunesKeepPanes(lib: Lib, s: State, text: string)
    requires PanesOk(lib, s) && s.FocusedPane()
    ensures PanesOk(lib, PaneLetter(lib, s, text))
  {
    var wi := s.focus - 1;
    var w := s.windows[wi];
    if text == "j" {
      MoveSelKeepsPanes(lib, s, 1);
    } else if text == "k" {
      MoveSelKeepsPanes(lib, s, -1);
    } else if text == "s" {
      SetWindowKeepsPanes(lib, s, wi, NextSort(w));
    } else if text == "x" {
      ToggleKeepsSelection(lib, w);
      SetWindowKeepsPanes(lib, s, wi, ToggleTree(lib, w));
    }
  }

  lemma PaneKeyKeepsPanes(lib: Lib, s: State, key: Key)
    requires PanesOk(lib, s) && !ProcsAt(s, s.focus)
    ensures PanesOk(lib, PaneKey(lib, s, key))
  {
    if s.FocusedPane() {
      var wi := s.focus - 1;
      var w := s.windows[wi];
      match key {
        case Up => MoveSelKeepsPanes(lib, s, -1);
        case Down => MoveSelKeepsPanes(lib, s, 1);
        case Space => SetWindowKeepsPanes(lib, s, wi, w.(collapsed := !w.collapsed));
        case TabKey => CycleFocusFrame(s, true);
        case ShiftTab => CycleFocusFrame(s, false);
        case Runes(text) => PaneRunesKeepPanes(lib, s, text);
        case _ =>
      }
    }
  }

  lemma FilterKeyKeepsPanes(lib: Lib, s: State, key: Key)
    requires PanesOk(lib, s)
    ensures PanesOk(lib, FilterKey(s, key))
  {
    if s.FocusedPane() {
      var wi := s.focus - 1;
      var w := s.windows[wi];
      match key {
        case Esc => SetWindowKeepsPanes(lib, s, wi, w.(filter := "", sel := 0));
        case Backspace =>
          if |w.filter| > 0 {
            SetWindowKeepsPanes(lib, s, wi, w.(filter := w.filter[..|w.filter| - 1], sel := 0));
          }
        case Runes(text) => SetWindowKeepsPanes(lib, s, wi, w.(filter := w.filter + text, sel := 0));
        case _ =>
      }
    }
  }

  /** Emptying the list while the Processes window has the focus. */
  lemma ClosingKeepsPanes(lib: Lib, s: State, cancelled: set<nat>)
    requires PanesOk(lib, s) && s.procWin >= 0
    ensures PanesOk(lib, RemoveProcWindow(s.(procs := [], cancelled := cancelled)))
    ensures PanesOk(lib, RemoveProcWindow(s.(procs := [], procSel := 0, cancelled := cancelled)))
  {
  }

  /** Shrinking it, to nothing or not. */
  lemma RemovalKeepsPanes(lib: Lib, s: State, procs: seq<Proc>, cancelled: set<nat>)
    requires PanesOk(lib, s) && s.procWin >= 0
    ensures PanesOk(lib, AfterRemoval(s.(procs := procs, cancelled := cancelled)))
  {
    if procs == [] {
      ClosingKeepsPanes(lib, s, cancelled);
    }
  }

  lemma ProcRunesKeepPanes(lib: Lib, s: State, text: string)
    requires PanesOk(lib, s) && ProcsAt(s, s.focus)
    ensures PanesOk(lib, ProcKey(s, Runes(text)))
  {
    if text == "d" {
      RemovalKeepsPanes(lib, s, Without(s).procs, Without(s).cancelled);
    } else if text == "p" {
      RemovalKeepsPanes(lib, s, Unfinished(s.procs), s.cancelled);
    } else if text == "D" {
      ClosingKeepsPanes(lib, s, KillAll(s).cancelled);
    }
  }

  lemma ProcKeyKeepsPanes(lib: Lib, s: State, key: Key)
    requires PanesOk(lib, s) && ProcsAt(s, s.focus)
    ensures PanesOk(lib, ProcKey(s, key))
  {
    match key
    case Space =>
      var w := s.windows[s.procWin];
      SetWindowKeepsPanes(lib, s, s.procWin, w.(collapsed := !w.collapsed));
    case TabKey => CycleFocusFrame(s, true);
    case ShiftTab => CycleFocusFrame(s, false);
    case Runes(text) => ProcRunesKeepPanes(lib, s, text);
    case _ =>
  }

  lemma SubmitKeepsPanes(lib: Lib, s: State)
    requires PanesOk(lib, s) && s.focus == 0
    ensures PanesOk(lib, Submit(lib, s))
  {
    var line, cleared := Trim(s.prompt.text), s.(prompt := Prompt(s.prompt.mode, "", -1));
    assert PanesOk(lib, cleared) && PanesOk(lib, KillAll(cleared));
    StartKeepsPanes(lib, cleared, line);
  }

  lemma ChatKeyKeepsPanes(lib: Lib, s: State, key: Key, typed: Prompt)
    requires PanesOk(lib, s) && s.focus == 0
    ensures PanesOk(lib, ChatKey(lib, s, key, typed))
  {
    match key
    case TabKey => CycleFocusFrame(s, true);
    case Enter => SubmitKeepsPanes(lib, s);
    case _ =>
  }

  lemma PressKeepsPanes(lib: Lib, s: State, key: Key, typed: Prompt)
    requires PanesOk(lib, s)
    ensures PanesOk(lib, PressKey(lib, s, key, typed))
  {
    if key == ShiftTab {
      CycleFocusFrame(s, false);
    } else if s.focus == 0 {
      ChatKeyKeepsPanes(lib, s, key, typed);
    } else if s.filtering {
      FilterKeyKeepsPanes(lib, s, key);
    } else if ProcsAt(s, s.focus) {
      ProcKeyKeepsPanes(lib, s, key);
    } else {
      PaneKeyKeepsPanes(lib, s, key);
    }
  }

  lemma StartKeepsPanes(lib: Lib, s: State, command: string)
    requires PanesOk(lib, s)
    ensures PanesOk(lib, StartProcess(s, command))
  {
  }

  lemma ListingKeepsPanes(lib: Lib, s: State, lists: seq<Option<seq<Node>>>, errs: seq<bool>)
    requires PanesOk(lib, s)
    ensures PanesOk(lib, ObjectsDone(lib, s, lists, errs))
  {
    forall i | 0 <= i < |s.windows|
      ensures SelInRange(lib, Refreshed(lib, s.windows[i], i, lists, errs))
      ensures Refreshed(lib, s.windows[i], i, lists, errs).isProcs == s.windows[i].isProcs
    {
    }
  }

  lemma StepKeepsPanes(lib: Lib, w: World, e: Event)
    requires Inv(lib, w)
    ensures PanesOk(lib, Step(lib, w, e).ui)
  {
    match e
    case Press(key, typed) => PressKeepsPanes(lib, w.ui, key, typed);
    case Launch(command) => StartKeepsPanes(lib, w.ui, command);
    case Listing(lists, errs) => ListingKeepsPanes(lib, w.ui, lists, errs);
    case _ =>
  }

  // ---------- Every step keeps the list and reach invariants ----------

  lemma {:induction false} FiredAllCovers(procs: seq<Proc>, i: nat)
    requires i < |procs|
    ensures Fired(procs[i]) <= FiredAll(procs)
  {
    if i > 0 {
      FiredAllCovers(procs[1..], i - 1);
    }
  }

  /** Purging keeps exactly the unfinished processes, in order. */
  lemma {:induction false} UnfinishedKept(procs: seq<Proc>, nextId: nat)
    requires ListInv(procs, nextId)
    ensures ListInv(Unfinished(procs), nextId)
    ensures forall p :: p in Unfinished(procs) <==> p in procs && !p.done
  {
    if procs != [] {
      UnfinishedKept(procs[1..], nextId);
      assert forall p :: p in procs <==> p == procs[0] || p in procs[1..];
    }
  }

  /** Taking processes off the list loses none, provided each one taken off has been
      cancelled or has its cancel function still to arrive. */
  lemma RemovalKeepsReach(w: World, w': World)
    requires ReachInv(w)
    requires w' == w.(ui := w'.ui) && w'.ui.nextId == w.ui.nextId && w.ui.cancelled <= w'.ui.cancelled
    requires forall p :: p in w'.ui.procs ==> p in w.ui.procs
    requires forall p :: p in w.ui.procs ==> p in w'.ui.procs || p.id in w'.ui.cancelled || Awaited(w, p.id)
    ensures ReachInv(w')
  {
    forall id: nat | id < w'.ui.nextId
      ensures Listed(w'.ui.procs, id) || id in w'.ui.cancelled || Awaited(w', id)
    {
      if Listed(w.ui.procs, id) {
        var p := w.ui.procs[FindProc(w.ui.procs, id)];
        assert p in w.ui.procs;
        if p in w'.ui.procs {
          var j :| 0 <= j < |w'.ui.procs| && w'.ui.procs[j] == p;
        }
      }
    }
    forall i | 0 <= i < |w'.ui.procs|
      ensures NeverLost(w', w'.ui.procs[i])
    {
      var p := w'.ui.procs[i];
      assert p in w'.ui.procs;
      var j :| 0 <= j < |w.ui.procs| && w.ui.procs[j] == p;
      assert NeverLost(w, p);
    }
  }

  ghost predicate ListsOk(w: World) {
    ListInv(w.ui.procs, w.ui.nextId) && ReachInv(w)
  }

  /** A step of the state that leaves the processes alone. */
  lemma SameProcsKeepsLists(w: World, ui: State)
    requires ListsOk(w)
    requires ui.procs == w.ui.procs && ui.nextId == w.ui.nextId && w.ui.cancelled <= ui.cancelled
    ensures ListsOk(w.(ui := ui))
  {
    RemovalKeepsReach(w, w.(ui := ui));
  }

  lemma AfterRemovalFrame(s: State)
    requires s.procWin < |s.windows|
    ensures var t := AfterRemoval(s); t.procs == s.procs && t.nextId == s.nextId && t.cancelled == s.cancelled
  {
  }

  lemma WithoutOneProc(procs: seq<Proc>, nextId: nat, k: nat)
    requires ListInv(procs, nextId) && k < |procs|
    ensures var rest := procs[..k] + procs[k + 1..];
            && ListInv(rest, nextId) && (forall p :: p in rest ==> p in procs)
            && (forall p :: p in procs ==> p in rest || p == procs[k])
  {
    var rest := procs[..k] + procs[k + 1..];
    assert forall i | 0 <= i < |rest| :: rest[i] == procs[if i < k then i else i + 1];
    forall p | p in procs && p != procs[k]
      ensures p in rest
    {
      var i :| 0 <= i < |procs| && procs[i] == p;
      assert rest[if i < k then i else i - 1] == p;
    }
  }

  lemma DeleteKeepsLists(w: World)
    requires ListsOk(w) && ProcPaneInv(w.ui) && w.ui.procs != []
    ensures ListsOk(w.(ui := DeleteSelected(w.ui)))
  {
    var s := w.ui;
    var rest := s.procs[..s.procSel] + s.procs[s.procSel + 1..];
    WithoutOneProc(s.procs, s.nextId, s.procSel);
    AfterRemovalFrame(s.(cancelled := s.cancelled + Fired(s.procs[s.procSel]), procs := rest));
    assert NeverLost(w, s.procs[s.procSel]);
    RemovalKeepsReach(w, w.(ui := DeleteSelected(s)));
  }

  lemma PurgeKeepsLists(w: World)
    requires ListsOk(w) && ProcPaneInv(w.ui)
    ensures ListsOk(w.(ui := AfterRemoval(w.ui.(procs := Unfinished(w.ui.procs)))))
  {
    var w' := w.(ui := AfterRemoval(w.ui.(procs := Unfinished(w.ui.procs))));
    UnfinishedKept(w.ui.procs, w.ui.nextId);
    AfterRemovalFrame(w.ui.(procs := Unfinished(w.ui.procs)));
    forall p | p in w.ui.procs
      ensures p in w'.ui.procs || p.id in w'.ui.cancelled
    {
      var i :| 0 <= i < |w.ui.procs| && w.ui.procs[i] == p;
      assert NeverLost(w, w.ui.procs[i]);
    }
    RemovalKeepsReach(w, w');
  }

  lemma DeleteAllKeepsLists(w: World)
    requires ListsOk(w) && ProcPaneInv(w.ui)
    ensures ListsOk(w.(ui := RemoveProcWindow(KillAll(w.ui).(procs := []))))
  {
    var w' := w.(ui := RemoveProcWindow(KillAll(w.ui).(procs := [])));
    forall p | p in w.ui.procs
      ensures p.id in w'.ui.cancelled || Awaited(w, p.id)
    {
      var i :| 0 <= i < |w.ui.procs| && w.ui.procs[i] == p;
      assert NeverLost(w, w.ui.procs[i]);
      FiredAllCovers(w.ui.procs, i);
    }
    RemovalKeepsReach(w, w');
  }

  predicate Removes(s: State, key: Key) {
    key.Runes? && (key.text == "d" || key.text == "p" || key.text == "D")
  }

  /** What a state change leaves alone when it neither adds nor removes a process. */
  ghost predicate SameProcs(s: State, t: State) {
    t.procs == s.procs && t.nextId == s.nextId && s.cancelled <= t.cancelled
  }

  lemma ProcKeySameProcs(s: State, key: Key)
    requires ProcPaneInv(s) && !Removes(s, key)
    ensures SameProcs(s, ProcKey(s, key))
  {
    CycleFocusFrame(s, true);
    CycleFocusFrame(s, false);
  }

  lemma PaneKeySameProcs(lib: Lib, s: State, key: Key)
    requires ProcPaneInv(s)
    ensures SameProcs(s, PaneKey(lib, s, key))
  {
    match key
    case TabKey => CycleFocusFrame(s, true);
    case ShiftTab => CycleFocusFrame(s, false);
    case _ =>
  }

  lemma FilterKeySameProcs(s: State, key: Key)
    ensures SameProcs(s, FilterKey(s, key))
  {
  }

  /** A key that starts a process, or leaves the processes alone. */
  ghost predicate SameOrStarts(s: State, t: State, command: string) {
    SameProcs(s, t) || t == StartProcess(s.(prompt := t.prompt), command)
  }

  lemma SubmitProcs(lib: Lib, s: State)
    ensures SameOrStarts(s, Submit(lib, s), Trim(s.prompt.text))
  {
  }

  lemma ChatKeyProcs(lib: Lib, s: State, key: Key, typed: Prompt)
    requires ProcPaneInv(s)
    ensures SameOrStarts(s, ChatKey(lib, s, key, typed), Trim(s.prompt.text))
  {
    match key
    case TabKey => CycleFocusFrame(s, true);
    case Enter => SubmitProcs(lib, s);
    case _ =>
  }

  /** What a key in a pane other than Processes changes. */
  lemma KeyElsewhereSameProcs(lib: Lib, s: State, key: Key, typed: Prompt)
    requires ProcPaneInv(s) && (key == ShiftTab || (s.focus != 0 && (s.filtering || !ProcsAt(s, s.focus))))
    ensures SameProcs(s, PressKey(lib, s, key, typed))
  {
    if key == ShiftTab {
      CycleFocusFrame(s, false);
    } else if s.filtering {
      FilterKeySameProcs(s, key);
    } else {
      PaneKeySameProcs(lib, s, key);
    }
  }

  lemma PressKeepsLists(lib: Lib, w: World, key: Key, typed: Prompt)
    requires Inv(lib, w)
    ensures ListsOk(Step(lib, w, Press(key, typed)))
  {
    var s := w.ui;
    if key == ShiftTab || (s.focus != 0 && (s.filtering || !ProcsAt(s, s.focus))) {
      KeyElsewhereSameProcs(lib, s, key, typed);
      SameProcsKeepsLists(w, PressKey(lib, s, key, typed));
    } else if s.focus == 0 {
      ChatKeyKeepsLists(lib, w, key, typed);
    } else {
      ProcKeyKeepsLists(w, key);
      ProcKeyTakesNoId(s, key);
    }
  }

  lemma ProcKeyTakesNoId(s: State, key: Key)
    requires ProcPaneInv(s)
    ensures ProcKey(s, key).nextId == s.nextId
  {
    if !Removes(s, key) {
      ProcKeySameProcs(s, key);
    }
  }

  lemma ChatKeyKeepsLists(lib: Lib, w: World, key: Key, typed: Prompt)
    requires Inv(lib, w)
    ensures var t := ChatKey(lib, w.ui, key, typed);
            ListsOk(w.(ui := t, spawned := if t.nextId > w.ui.nextId then w.spawned + {w.ui.nextId} else w.spawned))
  {
    var s, t, line := w.ui, ChatKey(lib, w.ui, key, typed), Trim(w.ui.prompt.text);
    ChatKeyProcs(lib, s, key, typed);
    if SameProcs(s, t) {
      SameProcsKeepsLists(w, t);
    } else {
      var asked := w.(ui := s.(prompt := t.prompt));
      SameProcsKeepsLists(w, asked.ui);
      StartAdds(asked.ui, line);
      LaunchKeepsLists(asked, line);
    }
  }

  lemma ProcKeyKeepsLists(w: World, key: Key)
    requires ListsOk(w) && ProcPaneInv(w.ui)
    ensures ListsOk(w.(ui := ProcKey(w.ui, key)))
  {
    if !Removes(w.ui, key) {
      ProcKeySameProcs(w.ui, key);
      SameProcsKeepsLists(w, ProcKey(w.ui, key));
    } else if key.text == "p" {
      PurgeKeepsLists(w);
    } else if key.text == "D" {
      DeleteAllKeepsLists(w);
    } else if w.ui.procs != [] {
      DeleteKeepsLists(w);
    }
  }

  lemma IsListed(procs: seq<Proc>, i: nat)
    requires i < |procs|
    ensures Listed(procs, procs[i].id)
  {
  }

  lemma StartAdds(s: State, command: string)
    ensures var t := StartProcess(s, command);
            && t.procs == s.procs + [Proc(s.nextId, command, None, false)]
            && t.nextId == s.nextId + 1 && t.cancelled == s.cancelled
  {
  }

  lemma LaunchKeepsLists(w: World, command: string)
    requires ListsOk(w)
    ensures ListsOk(w.(ui := StartProcess(w.ui, command), spawned := w.spawned + {w.ui.nextId}))
  {
    var w' := w.(ui := StartProcess(w.ui, command), spawned := w.spawned + {w.ui.nextId});
    StartAdds(w.ui, command);
    KeepReach(w, w');
  }

  /** A new or changed process list, of which nothing is lost, reaches what the old one did. */
  lemma KeepReach(w: World, w': World)
    requires ReachInv(w) && w.ui.cancelled <= w'.ui.cancelled && w'.ui.nextId >= w.ui.nextId
    requires w'.spawned >= w.spawned && (forall id | id in w'.spawned :: id < w'.ui.nextId)
    requires forall id: nat | w.ui.nextId <= id < w'.ui.nextId :: id in w'.spawned
    requires w'.cancelMail <= w.cancelMail && w'.doneMail <= w.doneMail
    requires |w'.ui.procs| >= |w.ui.procs|
    requires forall i | 0 <= i < |w.ui.procs| :: w'.ui.procs[i].id == w.ui.procs[i].id
    requires forall i | 0 <= i < |w'.ui.procs| ::
               (i < |w.ui.procs| ==> NeverLost(w, w.ui.procs[i])) ==> NeverLost(w', w'.ui.procs[i])
    requires forall id | (id, id) in w.cancelMail - w'.cancelMail :: Listed(w.ui.procs, id) || id in w'.ui.cancelled
    ensures ReachInv(w')
  {
    forall id: nat | id < w'.ui.nextId
      ensures Listed(w'.ui.procs, id) || id in w'.ui.cancelled || Awaited(w', id)
    {
      if Listed(w.ui.procs, id) {
        IsListed(w'.ui.procs, FindProc(w.ui.procs, id));
      }
    }
  }

  /** The ids are unique, so the arriving function lands on its own process, or is called. */
  lemma DeliverCancelKeepsLists(w: World, id: nat, ctx: nat)
    requires ListsOk(w) && (id, ctx) in w.cancelMail
    ensures ListsOk(w.(ui := ReceiveCancel(w.ui, id, ctx), cancelMail := w.cancelMail - {(id, ctx)}))
  {
    var w' := w.(ui := ReceiveCancel(w.ui, id, ctx), cancelMail := w.cancelMail - {(id, ctx)});
    assert (id, ctx).0 == (id, ctx).1;
    forall i | 0 <= i < |w'.ui.procs| && NeverLost(w, w.ui.procs[i])
      ensures NeverLost(w', w'.ui.procs[i])
    {
    }
    KeepReach(w, w');
  }

  lemma DoneMarks(s: State, id: nat)
    ensures var t := ReceiveDone(s, id);
            && |t.procs| == |s.procs| && t.nextId == s.nextId && t.cancelled == s.cancelled
            && forall i | 0 <= i < |s.procs| ::
                 t.procs[i] == s.procs[i] || (s.procs[i].id == id && t.procs[i] == s.procs[i].(done := true))
  {
  }

  lemma DeliverDoneKeepsLists(w: World, id: nat)
    requires ListsOk(w) && id in w.doneMail
    ensures ListsOk(w.(ui := ReceiveDone(w.ui, id), doneMail := w.doneMail - {id}))
  {
    var w' := w.(ui := ReceiveDone(w.ui, id), doneMail := w.doneMail - {id});
    DoneMarks(w.ui, id);
    KeepReach(w, w');
  }

  /** Only mail and goroutines move: nothing awaited is forgotten. */
  lemma GoroutineKeepsLists(lib: Lib, w: World, e: Event)
    requires Inv(lib, w) && (e.SendCancel? || e.Finish?)
    ensures ListsOk(Step(lib, w, e))
  {
    var w' := Step(lib, w, e);
    forall i | 0 <= i < |w'.ui.procs|
      ensures NeverLost(w', w'.ui.procs[i])
    {
      assert NeverLost(w, w.ui.procs[i]);
    }
    assert forall id :: Awaited(w, id) ==> Awaited(w', id);
  }

  /** Every step of every run keeps the whole invariant. */
  lemma StepKeepsInv(lib: Lib, w: World, e: Event)
    requires Inv(lib, w)
    ensures Inv(lib, Step(lib, w, e))
  {
    StepKeepsPanes(lib, w, e);
    match e
    case Press(key, typed) => PressKeepsLists(lib, w, key, typed);
    case Launch(command) => LaunchKeepsLists(w, command);
    case SendCancel(_) => GoroutineKeepsLists(lib, w, e);
    case Finish(_) => GoroutineKeepsLists(lib, w, e);
    case DeliverCancel(id, ctx) => if (id, ctx) in w.cancelMail { DeliverCancelKeepsLists(w, id, ctx); }
    case DeliverDone(id) => if id in w.doneMail { DeliverDoneKeepsLists(w, id); }
    case _ => SameProcsKeepsLists(w, Step(lib, w, e).ui);
  }

  // ---------- Laws over whole runs ----------

  function Start(windows: seq<Window>, prompt: Prompt): World {
    World(Initial(windows, prompt), {}, {}, {}, {})
  }

  /** Every run keeps the invariants. */
  lemma {:induction false} RunKeepsInv(lib: Lib, w: World, events: seq<Event>)
    requires Inv(lib, w)
    ensures Inv(lib, Run(lib, w, events))
    decreases |events|
  {
    if events != [] {
      StepKeepsInv(lib, w, events[0]);
      RunKeepsInv(lib, Step(lib, w, events[0]), events[1..]);
    }
  }

  /** Any run from the start satisfies them. */
  lemma RunsHaveInv(lib: Lib, windows: seq<Window>, prompt: Prompt, events: seq<Event>)
    requires forall i | 0 <= i < |windows| :: !windows[i].isProcs && windows[i].sel == 0
    ensures Inv(lib, Start(windows, prompt))
    ensures Inv(lib, Run(lib, Start(windows, prompt), events))
  {
    RunKeepsInv(lib, Start(windows, prompt), events);
  }

  /** No orphan: in every reachable state, each process ever launched is still listed, or
      its context has been cancelled, or its cancel function is still to arrive. */
  lemma NoOrphan(lib: Lib, w: World, events: seq<Event>, id: nat)
    requires Inv(lib, w)
    ensures var v := Run(lib, w, events);
            id < v.ui.nextId ==> Listed(v.ui.procs, id) || id in v.ui.cancelled || Awaited(v, id)
  {
    RunKeepsInv(lib, w, events);
  }

  /** ... and when it arrives for a process no longer listed, the process is cancelled. */
  lemma LateCancelIsFired(lib: Lib, w: World, id: nat)
    requires Inv(lib, w) && (id, id) in w.cancelMail && !Listed(w.ui.procs, id)
    ensures id in Step(lib, w, DeliverCancel(id, id)).ui.cancelled
  {
  }

  /** A process that left the list early does not run on: once its goroutine has sent its
      cancel function and that has arrived, it is cancelled. */
  lemma DeletedGetsCancelled(lib: Lib, w: World, id: nat)
    requires Inv(lib, w) && id < w.ui.nextId && !Listed(w.ui.procs, id)
    ensures id in Run(lib, w, [SendCancel(id), DeliverCancel(id, id)]).ui.cancelled
  {
    var sent := Step(lib, w, SendCancel(id));
    StepKeepsInv(lib, w, SendCancel(id));
    var deliver := DeliverCancel(id, id);
    RunCons(lib, w, SendCancel(id), [deliver]);
    RunCons(lib, sent, deliver, []);
    assert [SendCancel(id)] + [deliver] == [SendCancel(id), deliver] && [deliver] + [] == [deliver];
    if id !in w.ui.cancelled {
      assert Awaited(w, id);
      LateCancelIsFired(lib, sent, id);
    }
  }

  /** The Processes window is shown after every one of these events. */
  ghost predicate ShownAfterEach(lib: Lib, w: World, events: seq<Event>)
    requires Inv(lib, w)
    decreases |events|
  {
    events == [] ||
    (StepKeepsInv(lib, w, events[0]);
     Step(lib, w, events[0]).ui.inProcView && ShownAfterEach(lib, Step(lib, w, events[0]), events[1..]))
  }

  /** While shown, the saved prompt stays; once left, it is the prompt. */
  ghost predicate SavedKept(s: State, t: State) {
    if t.inProcView then t.saved == s.saved else t.prompt == s.saved
  }

  lemma ProcKeyKeepsSaved(s: State, key: Key)
    requires ProcPaneInv(s) && s.inProcView
    ensures SavedKept(s, ProcKey(s, key))
  {
    match key
    case TabKey => CycleFocusKeepsSaved(s, true);
    case ShiftTab => CycleFocusKeepsSaved(s, false);
    case Runes(text) => ProcRunesKeepSaved(s, text);
    case _ =>
  }

  lemma CycleFocusKeepsSaved(s: State, forward: bool)
    requires ProcPaneInv(s) && s.inProcView
    ensures SavedKept(s, CycleFocus(s, forward))
  {
    CycleFocusCases(s, forward);
  }

  lemma ClosingKeepsSaved(s: State, procSel: nat, cancelled: set<nat>)
    requires ProcPaneInv(s) && s.inProcView
    ensures SavedKept(s, RemoveProcWindow(s.(procs := [], procSel := procSel, cancelled := cancelled)))
  {
  }

  lemma RemovalKeepsSaved(s: State, procs: seq<Proc>, cancelled: set<nat>)
    requires ProcPaneInv(s) && s.inProcView
    ensures SavedKept(s, AfterRemoval(s.(procs := procs, cancelled := cancelled)))
  {
    if procs == [] {
      ClosingKeepsSaved(s, 0, cancelled);
    }
  }

  lemma ProcRunesKeepSaved(s: State, text: string)
    requires ProcPaneInv(s) && s.inProcView
    ensures SavedKept(s, ProcKey(s, Runes(text)))
  {
    if text == "d" {
      RemovalKeepsSaved(s, Without(s).procs, Without(s).cancelled);
    } else if text == "p" {
      RemovalKeepsSaved(s, Unfinished(s.procs), s.cancelled);
    } else if text == "D" {
      ClosingKeepsSaved(s, s.procSel, KillAll(s).cancelled);
    }
  }

  lemma PressKeepsSaved(lib: Lib, s: State, key: Key, typed: Prompt)
    requires ProcPaneInv(s) && s.inProcView
    ensures SavedKept(s, PressKey(lib, s, key, typed))
  {
    if key == ShiftTab {
      CycleFocusKeepsSaved(s, false);
    } else if !s.filtering {
      ProcKeyKeepsSaved(s, key);
    }
  }

  lemma StepKeepsSaved(lib: Lib, w: World, e: Event)
    requires Inv(lib, w) && w.ui.inProcView
    ensures SavedKept(w.ui, Step(lib, w, e).ui)
  {
    match e
    case Press(key, typed) => PressKeepsSaved(lib, w.ui, key, typed);
    case _ =>
  }

  lemma {:induction false} SavedThroughout(lib: Lib, w: World, events: seq<Event>)
    requires Inv(lib, w) && w.ui.inProcView && ShownAfterEach(lib, w, events)
    ensures Run(lib, w, events).ui.inProcView && Run(lib, w, events).ui.saved == w.ui.saved
    decreases |events|
  {
    if events != [] {
      StepKeepsInv(lib, w, events[0]);
      StepKeepsSaved(lib, w, events[0]);
      SavedThroughout(lib, Step(lib, w, events[0]), events[1..]);
    }
  }

  /** The Processes window is not shown afterwards, or the prompt of before is saved. */
  ghost predicate Entered(s: State, t: State) {
    t.inProcView ==> t.saved == s.prompt
  }

  lemma CycleFocusEnters(s: State, forward: bool)
    requires ProcPaneInv(s) && !s.inProcView
    ensures Entered(s, CycleFocus(s, forward))
  {
    if s.windows != [] {
      CycleFocusCases(s, forward);
    }
  }

  lemma PaneKeyEnters(lib: Lib, s: State, key: Key)
    requires ProcPaneInv(s) && !s.inProcView
    ensures Entered(s, PaneKey(lib, s, key))
  {
    CycleFocusEnters(s, true);
    CycleFocusEnters(s, false);
  }

  lemma FilterKeyEnters(s: State, key: Key)
    requires !s.inProcView
    ensures Entered(s, FilterKey(s, key))
  {
  }

  lemma PressEnters(lib: Lib, s: State, key: Key, typed: Prompt)
    requires ProcPaneInv(s) && !s.inProcView
    ensures Entered(s, PressKey(lib, s, key, typed))
  {
    if key == ShiftTab {
      CycleFocusEnters(s, false);
    } else if s.focus == 0 {
      CycleFocusEnters(s, true);
    } else if s.filtering {
      FilterKeyEnters(s, key);
    } else {
      PaneKeyEnters(lib, s, key);
    }
  }

  /** Only a key that moves the focus to the Processes window shows it, and the prompt of
      that moment is what is saved. */
  lemma EnteringSavesPrompt(lib: Lib, w: World, e: Event)
    requires Inv(lib, w) && !w.ui.inProcView && Step(lib, w, e).ui.inProcView
    ensures Step(lib, w, e).ui.saved == w.ui.prompt
  {
    match e
    case Press(key, typed) => PressEnters(lib, w.ui, key, typed);
    case _ =>
  }

  /** A run, by its first event. */
  lemma RunCons(lib: Lib, w: World, e: Event, rest: seq<Event>)
    requires Inv(lib, w)
    ensures Inv(lib, Step(lib, w, e)) && Run(lib, w, [e] + rest) == Run(lib, Step(lib, w, e), rest)
  {
    StepKeepsInv(lib, w, e);
    Seqs.Drop([e], rest, 0);
  }

  lemma {:induction false} RunAppend(lib: Lib, w: World, events: seq<Event>, e: Event)
    requires Inv(lib, w)
    ensures Inv(lib, Run(lib, w, events)) && Run(lib, w, events + [e]) == Step(lib, Run(lib, w, events), e)
    decreases |events|
  {
    if events == [] {
      assert ([] + [e])[1..] == [];
      StepKeepsInv(lib, w, e);
    } else {
      assert (events + [e])[1..] == events[1..] + [e];
      StepKeepsInv(lib, w, events[0]);
      RunAppend(lib, Step(lib, w, events[0]), events[1..], e);
    }
  }

  /** Whatever happens while the Processes window is shown, leaving it brings back the mode,
      text and history position that were there when it was entered. */
  lemma LeavingRestoresPrompt(lib: Lib, w: World, events: seq<Event>, leave: Event)
    requires Inv(lib, w) && !w.ui.inProcView && events != [] && ShownAfterEach(lib, w, events)
    ensures var left := Run(lib, w, events + [leave]).ui; left.inProcView || left.prompt == w.ui.prompt
  {
    var entered := Step(lib, w, events[0]);
    StepKeepsInv(lib, w, events[0]);
    EnteringSavesPrompt(lib, w, events[0]);
    SavedThroughout(lib, entered, events[1..]);
    RunAppend(lib, w, events, leave);
    StepKeepsSaved(lib, Run(lib, w, events), leave);
  }

  // ---------- What the prompt shows ----------

  /** While the Processes window is shown, the prompt is the saved one with the selected
      process's command as its text. */
  ghost predicate Settled(s: State) {
    s.inProcView ==> s.procSel < |s.procs| && s.prompt == s.saved.(text := s.procs[s.procSel].command)
  }

  lemma CycleFocusSettles(s: State, forward: bool)
    requires ProcPaneInv(s) && Settled(s)
    ensures Settled(CycleFocus(s, forward))
  {
    if s.windows != [] {
      CycleFocusCases(s, forward);
    }
  }

  lemma RemovalSettles(s: State, procs: seq<Proc>, cancelled: set<nat>)
    requires ProcPaneInv(s) && s.inProcView && Settled(s)
    ensures Settled(AfterRemoval(s.(procs := procs, cancelled := cancelled)))
    ensures Settled(RemoveProcWindow(s.(procs := [], cancelled := cancelled)))
  {
  }

  lemma ProcKeySettles(s: State, key: Key)
    requires ProcPaneInv(s) && s.inProcView && Settled(s)
    ensures Settled(ProcKey(s, key))
  {
    match key
    case TabKey => CycleFocusSettles(s, true);
    case ShiftTab => CycleFocusSettles(s, false);
    case Runes(text) => ProcRunesSettle(s, text);
    case _ =>
  }

  lemma ProcRunesSettle(s: State, text: string)
    requires ProcPaneInv(s) && s.inProcView && Settled(s)
    ensures Settled(ProcKey(s, Runes(text)))
  {
    if text == "d" {
      RemovalSettles(s, Without(s).procs, Without(s).cancelled);
    } else if text == "p" {
      RemovalSettles(s, Unfinished(s.procs), s.cancelled);
    } else if text == "D" {
      RemovalSettles(s, [], KillAll(s).cancelled);
    }
  }

  lemma OtherKeysSettle(lib: Lib, s: State, key: Key)
    requires ProcPaneInv(s) && Settled(s)
    ensures Settled(FilterKey(s, key))
    ensures !s.inProcView ==> Settled(PaneKey(lib, s, key))
  {
    if key == TabKey || key == ShiftTab {
      CycleFocusSettles(s, key == TabKey);
    }
  }

  lemma ChatKeySettles(lib: Lib, s: State, key: Key, typed: Prompt)
    requires ProcPaneInv(s) && s.focus == 0
    ensures Settled(ChatKey(lib, s, key, typed))
  {
    CycleFocusSettles(s, true);
  }

  lemma PressSettles(lib: Lib, s: State, key: Key, typed: Prompt)
    requires ProcPaneInv(s) && Settled(s)
    ensures Settled(PressKey(lib, s, key, typed))
  {
    if key == ShiftTab {
      CycleFocusSettles(s, false);
    } else if s.focus == 0 {
      ChatKeySettles(lib, s, key, typed);
    } else if s.filtering || !s.inProcView {
      OtherKeysSettle(lib, s, key);
    } else {
      ProcKeySettles(s, key);
    }
  }

  lemma StepKeepsSettled(lib: Lib, w: World, e: Event)
    requires Inv(lib, w) && Settled(w.ui) && !e.EditPrompt?
    ensures Settled(Step(lib, w, e).ui)
  {
    match e
    case Press(key, typed) => PressSettles(lib, w.ui, key, typed);
    case DeliverDone(id) => DoneMarks(w.ui, id);
    case _ =>
  }

  /** Unless another prompt is put in by something else, the prompt of the Processes window
      always shows the selected process's command, in the mode and at the history position of
      before. */
  lemma {:induction false} RunKeepsSettled(lib: Lib, w: World, events: seq<Event>)
    requires Inv(lib, w) && Settled(w.ui) && forall i | 0 <= i < |events| :: !events[i].EditPrompt?
    ensures Settled(Run(lib, w, events).ui)
    decreases |events|
  {
    if events != [] {
      StepKeepsInv(lib, w, events[0]);
      StepKeepsSettled(lib, w, events[0]);
      RunKeepsSettled(lib, Step(lib, w, events[0]), events[1..]);
    }
  }

  /** Moving the focus on and back again restores everything on show: focus, prompt and
      process view, into the Processes window and out of it alike. */
  lemma FocusThereAndBack(s: State, forward: bool)
    requires ProcPaneInv(s) && Settled(s)
    ensures var back := CycleFocus(CycleFocus(s, forward), !forward);
            back == s.(saved := back.saved) && (s.inProcView ==> back == s)
  {
    if s.windows != [] {
      var there := CycleFocus(s, forward);
      NextFocusTurns(s, forward);
      CycleFocusCases(s, forward);
      CycleFocusFrame(s, forward);
      CycleFocusCases(there, !forward);
    }
  }

  /** Leaving process view undoes entering it, and entering or leaving twice is doing it once. */
  lemma LeavingUndoesEntering(s: State)
    requires !s.inProcView
    ensures var entered := EnterProcView(s);
            && ExitProcView(entered).prompt == s.prompt
            && EnterProcView(entered) == entered && ExitProcView(ExitProcView(entered)) == ExitProcView(entered)
  {
  }

  // ---------- The invariant of the object alone ----------

  /** What holds of the shell whatever the goroutines do: panes and process list are in order. */
  ghost predicate StateInv(lib: Lib, s: State) {
    PanesOk(lib, s) && ListInv(s.procs, s.nextId)
  }

  lemma ProcKeyKeepsOrder(s: State, key: Key)
    requires ProcPaneInv(s) && ListInv(s.procs, s.nextId)
    ensures ListInv(ProcKey(s, key).procs, ProcKey(s, key).nextId)
    ensures forall p :: p in ProcKey(s, key).procs ==> p in s.procs
  {
    if !Removes(s, key) {
      ProcKeySameProcs(s, key);
    } else if key.text == "p" {
      UnfinishedKept(s.procs, s.nextId);
      AfterRemovalFrame(s.(procs := Unfinished(s.procs)));
    } else if key.text == "d" && s.procs != [] {
      WithoutOneProc(s.procs, s.nextId, s.procSel);
      AfterRemovalFrame(Without(s));
    }
  }

  lemma StartKeepsState(lib: Lib, s: State, command: string)
    requires StateInv(lib, s)
    ensures StateInv(lib, StartProcess(s, command))
  {
    StartKeepsPanes(lib, s, command);
    StartAdds(s, command);
  }

  lemma ChatKeyKeepsState(lib: Lib, s: State, key: Key, typed: Prompt)
    requires StateInv(lib, s) && s.focus == 0
    ensures StateInv(lib, ChatKey(lib, s, key, typed))
  {
    ChatKeyKeepsPanes(lib, s, key, typed);
    ChatKeyProcs(lib, s, key, typed);
    var t := ChatKey(lib, s, key, typed);
    if !SameProcs(s, t) {
      StartAdds(s.(prompt := t.prompt), Trim(s.prompt.text));
    }
  }

  lemma CancelMarks(s: State, id: nat, ctx: nat)
    ensures var t := ReceiveCancel(s, id, ctx);
            && |t.procs| == |s.procs| && t == s.(procs := t.procs, cancelled := t.cancelled)
            && forall i | 0 <= i < |s.procs| ::
                 t.procs[i] == s.procs[i] || (s.procs[i].id == id && t.procs[i] == s.procs[i].(cancel := Some(ctx)))
  {
  }

  lemma SameLengthKeepsPanes(lib: Lib, s: State, procs: seq<Proc>, cancelled: set<nat>)
    requires PanesOk(lib, s) && |procs| == |s.procs|
    ensures PanesOk(lib, s.(procs := procs, cancelled := cancelled))
  {
  }

  lemma CancelKeepsState(lib: Lib, s: State, id: nat)
    requires StateInv(lib, s)
    ensures StateInv(lib, ReceiveCancel(s, id, id))
  {
    var t := ReceiveCancel(s, id, id);
    CancelMarks(s, id, id);
    SameLengthKeepsPanes(lib, s, t.procs, t.cancelled);
  }

  lemma DoneKeepsState(lib: Lib, s: State, id: nat)
    requires StateInv(lib, s)
    ensures StateInv(lib, ReceiveDone(s, id))
  {
    var t := ReceiveDone(s, id);
    DoneMarks(s, id);
    SameLengthKeepsPanes(lib, s, t.procs, t.cancelled);
    assert t == s.(procs := t.procs);
  }

  /** All that the shell may rely on when a key goes to the Processes window. */
  lemma ProcKeyLaws(lib: Lib, s: State, key: Key)
    requires StateInv(lib, s) && ProcsAt(s, s.focus)
    ensures var t := ProcKey(s, key);
            StateInv(lib, t) && SavedKept(s, t) && forall p :: p in t.procs ==> p in s.procs
  {
    ProcKeyKeepsPanes(lib, s, key);
    ProcKeyKeepsOrder(s, key);
    ProcKeyKeepsSaved(s, key);
  }

  lemma PaneKeyLaws(lib: Lib, s: State, key: Key)
    requires StateInv(lib, s) && !ProcsAt(s, s.focus)
    ensures StateInv(lib, PaneKey(lib, s, key)) && SameProcs(s, PaneKey(lib, s, key))
  {
    PaneKeyKeepsPanes(lib, s, key);
    PaneKeySameProcs(lib, s, key);
  }

  /** Typing a filter changes the focused window at most, and selects its first row when it
      changes the filter. */
  lemma FilterKeyLaws(lib: Lib, s: State, key: Key)
    requires StateInv(lib, s)
    ensures var t := FilterKey(s, key);
            && StateInv(lib, t) && SameProcs(s, t) && t.prompt == s.prompt && t.focus == s.focus
            && |t.windows| == |s.windows|
            && forall i | 0 <= i < |t.windows| ::
                 t.windows[i] == s.windows[i] || (i == s.focus - 1 && t.windows[i].sel == 0)
  {
    FilterKeyKeepsPanes(lib, s, key);
    FilterKeySameProcs(s, key);
  }

  lemma ListingKeepsState(lib: Lib, s: State, lists: seq<Option<seq<Node>>>, errs: seq<bool>)
    requires StateInv(lib, s)
    ensures StateInv(lib, ObjectsDone(lib, s, lists, errs))
  {
    ListingKeepsPanes(lib, s, lists, errs);
  }

  /** Moving the focus keeps the object in order, changes only focus and prompt, and is undone
      by moving it back. */
  lemma CycleFocusLaws(lib: Lib, s: State, forward: bool)
    requires StateInv(lib, s)
    ensures var t := CycleFocus(s, forward);
            && StateInv(lib, t) && t.windows == s.windows && t.procs == s.procs
            && (s.windows == [] || t.focus != s.focus)
            && (Settled(s) ==> var back := CycleFocus(t, !forward); back == s.(saved := back.saved))
  {
    CycleFocusFrame(s, forward);
    if s.windows != [] {
      NextFocusTurns(s, forward);
    }
    if Settled(s) {
      FocusThereAndBack(s, forward);
    }
  }
}
