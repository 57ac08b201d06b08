/** What each key of the AI shell does, told by the fields it leaves behind, and what filter,
    rows and listings show. */
module TuiKeys {
  import opened Text
  import opened Tui
  import opened TuiRuns
  import opened Wrappers

  // ---------- Cancelling ----------

  /** The context is one that a process of the list has stored a cancel function for. */
  ghost predicate Stored(procs: seq<Proc>, ctx: nat) {
    exists i :: 0 <= i < |procs| && procs[i].cancel == Some(ctx)
  }

  /** Every stored cancel function was called, and no other. */
  ghost predicate CalledAll(s: State, t: State) {
    forall ctx: nat :: ctx in t.cancelled <==> ctx in s.cancelled || Stored(s.procs, ctx)
  }

  /** The selected process's cancel function was called, if it is stored, and no other. */
  predicate CalledSelected(s: State, t: State) {
    && s.procSel < |s.procs|
    && t.cancelled == s.cancelled + match s.procs[s.procSel].cancel case Some(ctx) => {ctx} case None => {}
  }

  lemma {:induction false} FiredAllAre(procs: seq<Proc>, ctx: nat)
    ensures ctx in FiredAll(procs) <==> Stored(procs, ctx)
  {
    if procs != [] {
      FiredAllAre(procs[1..], ctx);
      if i :| 0 <= i < |procs| && procs[i].cancel == Some(ctx) {
        assert i > 0 ==> procs[1..][i - 1].cancel == Some(ctx);
      }
    }
  }

  lemma KillAllCalls(s: State)
    ensures CalledAll(s, KillAll(s)) && KillAll(s) == s.(cancelled := KillAll(s).cancelled)
  {
    forall ctx: nat
      ensures ctx in KillAll(s).cancelled <==> ctx in s.cancelled || Stored(s.procs, ctx)
    {
      FiredAllAre(s.procs, ctx);
    }
  }

  // ---------- The chat ----------

  /** The line asks to quit the shell. */
  predicate IsExit(lib: Lib, s: State) {
    var line := Trim(s.prompt.text);
    s.prompt.mode == CommandMode && (line == "exit" || line == "quit") && lib.wellFormed(line)
  }

  /** The line asks to run in the background. */
  predicate IsBackground(lib: Lib, s: State) {
    var line := Trim(s.prompt.text);
    && s.prompt.mode == CommandMode && line != "" && line[0] != '/' && line != "exit" && line != "quit"
    && lib.wellFormed(line) && lib.background(line)
  }

  /** The line is not taken. */
  predicate IsRejected(lib: Lib, s: State) {
    var line := Trim(s.prompt.text);
    line == "" || (s.prompt.mode == CommandMode && line[0] != '/' && !lib.wellFormed(line))
  }

  ghost predicate SubmitTells(lib: Lib, s: State, t: State) {
    if IsRejected(lib, s) then t == s
    else
      && t.prompt == Prompt(s.prompt.mode, "", -1)
      && t.focus == s.focus && t.saved == s.saved && t.inProcView == s.inProcView
      && (IsExit(lib, s) ==> t.procs == s.procs && CalledAll(s, t))
      && (IsBackground(lib, s) ==>
            && t.procs == s.procs + [Proc(s.nextId, Trim(s.prompt.text), None, false)]
            && t.nextId == s.nextId + 1 && t.procWin >= 0 && t.cancelled == s.cancelled)
      && (!IsExit(lib, s) && !IsBackground(lib, s) ==> t == s.(prompt := t.prompt))
  }

  ghost predicate ChatTells(lib: Lib, s: State, t: State, key: Key, typed: Prompt) {
    match key
    case CtrlC => CalledAll(s, t) && t == s.(cancelled := t.cancelled)
    case Esc =>
      && t.prompt.mode != s.prompt.mode && t.prompt.text == s.prompt.text && t.prompt.hist == -1
      && t == s.(prompt := t.prompt)
    case TabKey =>
      if s.prompt.mode == CommandMode then t == s.(prompt := typed)
      else t.focus == if s.focus < |s.windows| then s.focus + 1 else 0
    case Enter => SubmitTells(lib, s, t)
    case _ => t == s.(prompt := typed)
  }

  lemma SubmitIsTold(lib: Lib, s: State)
    ensures SubmitTells(lib, s, Submit(lib, s))
  {
    var cleared := s.(prompt := Prompt(s.prompt.mode, "", -1));
    KillAllCalls(cleared);
    StartAdds(cleared, Trim(s.prompt.text));
    assert "exit"[0] == 'e' && "quit"[0] == 'q';
  }

  /** Ctrl-C calls every stored cancel function, and so does a line that quits; Escape changes
      the mode; Tab goes to the next pane; and a background line starts that process. */
  lemma ChatKeyIsTold(lib: Lib, s: State, key: Key, typed: Prompt)
    requires ProcPaneInv(s) && s.focus == 0
    ensures ChatTells(lib, s, ChatKey(lib, s, key, typed), key, typed)
  {
    match key
    case CtrlC => KillAllCalls(s);
    case TabKey =>
      if s.windows != [] {
        NextFocusIs(s, true);
        CycleFocusCases(s, true);
      }
    case Enter => SubmitIsTold(lib, s);
    case _ =>
  }

  /** Events with which the shell quits. */
  predicate Quits(lib: Lib, s: State, e: Event) {
    || e.Quit?
    || (e.Press? && s.focus == 0 && (e.key == CtrlC || (e.key == Enter && IsExit(lib, s))))
  }

  /** In whatever way the shell quits, after any run, each process ever launched is cancelled,
      or its cancel function is still to arrive. */
  lemma QuittingLeavesNone(lib: Lib, w: World, events: seq<Event>, e: Event, id: nat)
    requires Inv(lib, w) && Quits(lib, Run(lib, w, events).ui, e) && id < Run(lib, w, events).ui.nextId
    ensures Inv(lib, Run(lib, w, events))
    ensures var quit := Step(lib, Run(lib, w, events), e); id in quit.ui.cancelled || Awaited(quit, id)
  {
    RunKeepsInv(lib, w, events);
    var before := Run(lib, w, events);
    var s, quit := before.ui, Step(lib, before, e);
    QuittingCalls(lib, before, e);
    if Listed(s.procs, id) {
      var i := FindProc(s.procs, id);
      assert NeverLost(before, s.procs[i]);
      assert s.procs[i].cancel.Some? ==> Stored(s.procs, id);
    }
  }

  lemma QuittingCalls(lib: Lib, w: World, e: Event)
    requires Inv(lib, w) && Quits(lib, w.ui, e)
    ensures var quit := Step(lib, w, e);
            CalledAll(w.ui, quit.ui) && quit.ui.procs == w.ui.procs
            && quit.spawned == w.spawned && quit.cancelMail == w.cancelMail
  {
    KillAllCalls(w.ui);
    if e.Press? {
      ChatKeyIsTold(lib, w.ui, e.key, e.typed);
      assert IsExit(lib, w.ui) ==> !IsRejected(lib, w.ui) by { assert "exit"[0] == 'e' && "quit"[0] == 'q'; }
    }
  }

  // ---------- The Processes window ----------

  /** What is left of the list, its selection and its window once processes were taken off. */
  ghost predicate TakenOff(s: State, t: State) {
    && t.nextId == s.nextId
    && if t.procs == [] then
         && t.focus == 0 && t.prompt == s.saved && !t.inProcView
         && t.procWin == -1 && s.windows != [] && t.windows == s.windows[..|s.windows| - 1]
       else
         && t.focus == s.focus && t.inProcView && t.windows == s.windows && t.procWin == s.procWin
         && t.procSel == (if s.procSel < |t.procs| then s.procSel else |t.procs| - 1)
         && t.prompt == s.prompt.(text := t.procs[t.procSel].command)
  }

  /** Exactly the unfinished processes are left, in order. */
  ghost predicate OnlyUnfinished(before: seq<Proc>, after: seq<Proc>) {
    && (forall p :: p in after <==> p in before && !p.done)
    && (forall i, j | 0 <= i < j < |after| :: after[i].id < after[j].id)
  }

  /** Another process is selected, and its command shown. */
  predicate Selects(s: State, t: State, sel: int) {
    && 0 <= sel < |s.procs|
    && t == if sel == s.procSel then s else s.(procSel := sel, prompt := s.prompt.(text := s.procs[sel].command))
  }

  ghost predicate ProcsTell(s: State, t: State, key: Key) {
    match key
    case Up => Selects(s, t, if s.procSel == 0 then 0 else s.procSel - 1)
    case Down => Selects(s, t, if s.procSel + 1 == |s.procs| then s.procSel else s.procSel + 1)
    case Space =>
      && |t.windows| == |s.windows| && t == s.(windows := t.windows)
      && forall i | 0 <= i < |s.windows| ::
           t.windows[i] == if i == s.procWin then s.windows[i].(collapsed := !s.windows[i].collapsed) else s.windows[i]
    case Esc => t == s.(focus := 0, inProcView := false, prompt := s.saved)
    case TabKey => t == s.(focus := 0, inProcView := false, prompt := s.saved)
    case ShiftTab => s.focus > 0 && t == s.(focus := s.focus - 1, inProcView := false, prompt := s.saved)
    case Runes(text) =>
      if text == "d" then
        CalledSelected(s, t) && TakenOff(s, t) && t.procs == s.procs[..s.procSel] + s.procs[s.procSel + 1..]
      else if text == "k" then CalledSelected(s, t) && t == s.(cancelled := t.cancelled)
      else if text == "p" then t.cancelled == s.cancelled && TakenOff(s, t) && OnlyUnfinished(s.procs, t.procs)
      else if text == "D" then CalledAll(s, t) && TakenOff(s, t) && t.procs == []
      else t == s
    case _ => t == s
  }

  lemma RemovalTakesOff(s: State, procs: seq<Proc>, cancelled: set<nat>)
    requires ProcPaneInv(s) && s.inProcView
    ensures var t := AfterRemoval(s.(procs := procs, cancelled := cancelled));
            t.procs == procs && t.cancelled == cancelled && TakenOff(s, t)
    ensures var t := RemoveProcWindow(s.(procs := [], cancelled := cancelled));
            t.procs == [] && t.cancelled == cancelled && TakenOff(s, t)
  {
  }

  lemma PurgeIsTold(s: State)
    requires ProcPaneInv(s) && ListInv(s.procs, s.nextId) && s.inProcView
    ensures ProcsTell(s, ProcKey(s, Runes("p")), Runes("p"))
  {
    UnfinishedKept(s.procs, s.nextId);
    assert OnlyUnfinished(s.procs, Unfinished(s.procs));
    RemovalTakesOff(s, Unfinished(s.procs), s.cancelled);
  }

  lemma DeleteAllIsTold(s: State)
    requires ProcPaneInv(s) && s.inProcView
    ensures ProcsTell(s, ProcKey(s, Runes("D")), Runes("D"))
  {
    KillAllCalls(s);
    RemovalTakesOff(s, [], KillAll(s).cancelled);
  }

  lemma ProcLetterIsTold(s: State, text: string)
    requires ProcPaneInv(s) && ListInv(s.procs, s.nextId) && ProcsAt(s, s.focus)
    ensures ProcsTell(s, ProcKey(s, Runes(text)), Runes(text))
  {
    if text == "p" {
      PurgeIsTold(s);
    } else if text == "D" {
      DeleteAllIsTold(s);
    } else if text == "d" {
      RemovalTakesOff(s, Without(s).procs, Without(s).cancelled);
    }
  }

  /** The keys of the Processes window: the arrows select the neighbour, `k` cancels the selected
      process and keeps the list, `d` takes it off besides, `p` leaves exactly the unfinished
      ones in order, `D` cancels all and leaves none. */
  lemma ProcKeyIsTold(s: State, key: Key)
    requires ProcPaneInv(s) && ListInv(s.procs, s.nextId) && ProcsAt(s, s.focus)
    ensures ProcsTell(s, ProcKey(s, key), key)
  {
    match key
    case TabKey =>
      NextFocusIs(s, true);
      CycleFocusCases(s, true);
    case ShiftTab =>
      NextFocusIs(s, false);
      CycleFocusCases(s, false);
    case Runes(text) => ProcLetterIsTold(s, text);
    case _ =>
  }

  // ---------- Object windows ----------

  /** Only window `i` changes, and becomes `w`. */
  predicate Sets(s: State, t: State, i: int, w: Window) {
    0 <= i < |s.windows| && t == s.(windows := s.windows[i := w])
  }

  /** The selection of the focused window moves to row `sel`, if it has rows. */
  predicate SelectsRow(lib: Lib, s: State, t: State, sel: int) {
    && s.FocusedPane()
    && var w := s.windows[s.focus - 1];
       if |Rows(lib, w)| == 0 then t == s else sel >= 0 && Sets(s, t, s.focus - 1, w.(sel := sel))
  }

  predicate LetterTells(lib: Lib, s: State, t: State, text: string)
    requires s.FocusedPane()
  {
    var i := s.focus - 1;
    var w := s.windows[i];
    var modes := if w.nodes.Some? then 1 + |FirstMetrics(w.nodes.value)| else 1;
    if text == "j" then SelectsRow(lib, s, t, if w.sel + 1 < |Rows(lib, w)| then w.sel + 1 else w.sel)
    else if text == "k" then SelectsRow(lib, s, t, if w.sel == 0 then 0 else w.sel - 1)
    else if text == "/" then t == s.(filtering := true)
    else if text == "s" then
      && |t.windows| == |s.windows| && Sets(s, t, i, w.(sel := 0, sortIdx := t.windows[i].sortIdx))
      && (w.sortIdx < modes ==> t.windows[i].sortIdx == Following(w.sortIdx, modes))
    else if text == "r" then t == s.(loading := true)
    else if text == "x" then
      && |t.windows| == |s.windows|
      && Sets(s, t, i, w.(treeView := w.treeView != w.hierarchical, sel := t.windows[i].sel))
    else t == s
  }

  /** Round and round through so many modes. */
  function Following(mode: nat, modes: nat): nat {
    if mode + 1 < modes then mode + 1 else 0
  }

  predicate PaneTells(lib: Lib, s: State, t: State, key: Key)
    requires s.FocusedPane()
  {
    var i := s.focus - 1;
    var w, rows := s.windows[i], Rows(lib, s.windows[i]);
    match key
    case Up => SelectsRow(lib, s, t, if w.sel == 0 then 0 else w.sel - 1)
    case Down => SelectsRow(lib, s, t, if w.sel + 1 < |rows| then w.sel + 1 else w.sel)
    case Esc => t == s.(focus := 0)
    case Enter =>
      if w.sel < |rows| && rows[w.sel].node.name != ""
      then t == s.(focus := 0, prompt := s.prompt.(text := rows[w.sel].node.name)) else t == s
    case Space => Sets(s, t, i, w.(collapsed := !w.collapsed))
    case TabKey => t.focus == if s.focus < |s.windows| then s.focus + 1 else 0
    case ShiftTab => t.focus == s.focus - 1
    case Runes(text) => LetterTells(lib, s, t, text)
    case _ => t == s
  }

  /** The keys of an object window: the selection moves by one row and stops at the ends, Enter
      puts the selected name into the prompt, letters sort, reload, filter or show the tree. */
  lemma PaneKeyIsTold(lib: Lib, s: State, key: Key)
    requires PanesOk(lib, s) && s.FocusedPane()
    ensures PaneTells(lib, s, PaneKey(lib, s, key), key)
  {
    assert SelInRange(lib, s.windows[s.focus - 1]);
    match key
    case TabKey =>
      NextFocusIs(s, true);
      CycleFocusCases(s, true);
    case ShiftTab =>
      NextFocusIs(s, false);
      CycleFocusCases(s, false);
    case Runes(text) => LetterIsTold(lib, s, text);
    case Up => MoveIsTold(lib, s);
    case Down => MoveIsTold(lib, s);
    case _ =>
  }

  lemma SortIsTold(w: Window)
    ensures var modes := if w.nodes.Some? then 1 + |FirstMetrics(w.nodes.value)| else 1;
            && NextSort(w) == w.(sel := 0, sortIdx := NextSort(w).sortIdx)
            && (w.sortIdx < modes ==> NextSort(w).sortIdx == Following(w.sortIdx, modes))
  {
    var modes := 1 + |FirstMetrics(if w.nodes.Some? then w.nodes.value else [])|;
    Remainders(if w.sortIdx + 1 < modes then w.sortIdx + 1 else 0, modes);
  }

  lemma MoveIsTold(lib: Lib, s: State)
    requires s.FocusedPane() && SelInRange(lib, s.windows[s.focus - 1])
    ensures var w := s.windows[s.focus - 1];
            && SelectsRow(lib, s, MoveSel(lib, s, -1), if w.sel == 0 then 0 else w.sel - 1)
            && SelectsRow(lib, s, MoveSel(lib, s, 1), if w.sel + 1 < |Rows(lib, w)| then w.sel + 1 else w.sel)
  {
  }

  lemma ToggleIsTold(lib: Lib, s: State)
    requires s.FocusedPane()
    ensures LetterTells(lib, s, PaneLetter(lib, s, "x"), "x")
  {
  }

  lemma LetterIsTold(lib: Lib, s: State, text: string)
    requires s.FocusedPane() && SelInRange(lib, s.windows[s.focus - 1])
    ensures LetterTells(lib, s, PaneLetter(lib, s, text), text)
  {
    if text == "j" || text == "k" {
      MoveIsTold(lib, s);
    } else if text == "x" {
      ToggleIsTold(lib, s);
    } else if text == "s" {
      SortIsTold(s.windows[s.focus - 1]);
    }
  }

  /** There is a sort mode for the name and one for each metric of the first node that has any. */
  lemma {:induction false} FirstMetricsAre(nodes: seq<Node>, i: nat)
    requires i <= |nodes| && forall j | 0 <= j < i :: nodes[j].metrics == []
    requires i < |nodes| ==> nodes[i].metrics != []
    ensures FirstMetrics(nodes) == if i < |nodes| then nodes[i].metrics else []
  {
    if i > 0 {
      FirstMetricsAre(nodes[1..], i - 1);
    }
  }

  // ---------- Typing a filter ----------

  predicate FilterTells(s: State, t: State, key: Key)
    requires s.FocusedPane()
  {
    var i := s.focus - 1;
    var w := s.windows[i];
    match key
    case Esc => Sets(s, t.(filtering := s.filtering), i, w.(filter := "", sel := 0)) && !t.filtering
    case Enter => t == s.(filtering := false)
    case Backspace =>
      if w.filter == "" then t == s
      else Sets(s, t, i, w.(filter := w.filter[..|w.filter| - 1], sel := 0))
    case Runes(text) => Sets(s, t, i, w.(filter := w.filter + text, sel := 0))
    case _ => t == s
  }

  /** Typing a filter adds to it, Backspace takes off its last character, Enter keeps it and
      Escape drops it. */
  lemma FilterKeyIsTold(s: State, key: Key)
    requires s.FocusedPane()
    ensures FilterTells(s, FilterKey(s, key), key)
  {
  }

  // ---------- Every key ----------

  /** Shift-Tab goes back one pane wherever the focus is; any other key goes to the pane that
      has the focus, or to the filter being typed there. */
  ghost predicate PressTells(lib: Lib, s: State, t: State, key: Key, typed: Prompt) {
    if key == ShiftTab then t.focus == if s.focus == 0 then |s.windows| else s.focus - 1
    else if !s.FocusedPane() then ChatTells(lib, s, t, key, typed)
    else if s.filtering then FilterTells(s, t, key)
    else if s.windows[s.focus - 1].isProcs then ProcsTell(s, t, key)
    else PaneTells(lib, s, t, key)
  }

  lemma PressIsTold(lib: Lib, s: State, key: Key, typed: Prompt)
    requires StateInv(lib, s)
    ensures PressTells(lib, s, PressKey(lib, s, key, typed), key, typed)
  {
    if key == ShiftTab {
      if s.windows != [] {
        NextFocusIs(s, false);
        CycleFocusCases(s, false);
      }
    } else if s.focus == 0 {
      ChatKeyIsTold(lib, s, key, typed);
    } else if s.filtering {
      FilterKeyIsTold(s, key);
    } else if ProcsAt(s, s.focus) {
      ProcKeyIsTold(s, key);
    } else {
      PaneKeyIsTold(lib, s, key);
    }
  }

  // ---------- Nodes, rows, listings ----------

  /** The filter keeps each node as often as it is there if it matches, and drops it otherwise. */
  lemma {:induction false} MatchingAre(lib: Lib, nodes: seq<Node>, filter: string, n: Node)
    ensures multiset(Matching(lib, nodes, filter))[n] ==
            if lib.matches(n.name, filter) then multiset(nodes)[n] else 0
  {
    if nodes != [] {
      MatchingAre(lib, nodes[1..], filter, n);
      assert nodes == [nodes[0]] + nodes[1..];
    }
  }

  /** It keeps their order. */
  lemma {:induction false} MatchingInOrder(lib: Lib, a: seq<Node>, b: seq<Node>, filter: string)
    ensures Matching(lib, a + b, filter) == Matching(lib, a, filter) + Matching(lib, b, filter)
  {
    if a == [] {
      assert a + b == b;
    } else {
      assert (a + b)[1..] == a[1..] + b;
      MatchingInOrder(lib, a[1..], b, filter);
    }
  }

  /** A window shows the nodes of its last listing that match its filter, each as often as it
      was listed, and nothing else. */
  lemma ItemsAre(lib: Lib, w: Window, n: Node)
    requires lib.Valid()
    ensures multiset(Items(lib, w))[n] ==
            if w.nodes.Some? && (w.filter == "" || lib.matches(n.name, w.filter))
            then multiset(w.nodes.value)[n] else 0
  {
    var nodes := if w.nodes.Some? then w.nodes.value else [];
    MatchingAre(lib, nodes, w.filter, n);
  }

  /** In tree view the children of a node have the rows right after it, in their order. */
  lemma {:induction false} ChildRowShowsChild(items: seq<Node>, i: nat, c: nat)
    requires i < |items| && c < |items[i].children|
    ensures var row := TopRow(items, true, i) + 1 + c;
            row < |Flatten(items, true)| && Flatten(items, true)[row] == SidebarRow(items[i].children[c], items[i].name)
  {
    if i > 0 {
      ChildRowShowsChild(items[1..], i - 1, c);
      assert items[..i][1..] == items[1..][..i - 1];
    }
  }

  /** The window with its share of a listing, before the selection is looked at. */
  function WithListing(w: Window, i: nat, lists: seq<Option<seq<Node>>>, errs: seq<bool>): Window {
    w.(nodes := if i < |lists| then lists[i] else w.nodes, failed := if i < |errs| then errs[i] else w.failed)
  }

  /** A listing gives each object window its nodes and its error, and moves a selection only if
      its row is gone: then to the last row. */
  lemma ListingIsTold(lib: Lib, s: State, lists: seq<Option<seq<Node>>>, errs: seq<bool>, i: nat)
    requires i < |s.windows|
    ensures var t, w := ObjectsDone(lib, s, lists, errs), s.windows[i];
            var listed := WithListing(w, i, lists, errs);
            var n := |Rows(lib, listed)|;
            && !t.loading && |t.windows| == |s.windows|
            && t.windows[i] == if w.isProcs then w
                               else if w.sel < n then listed else listed.(sel := if n == 0 then 0 else n - 1)
  {
  }

  // ---------- Messages of background processes ----------

  /** A cancel function is stored with the process it comes for, and only there; it is called
      when there is none. */
  lemma CancelIsTold(s: State, id: nat, ctx: nat)
    requires ListInv(s.procs, s.nextId)
    ensures var t := ReceiveCancel(s, id, ctx);
            && |t.procs| == |s.procs| && t == s.(procs := t.procs, cancelled := t.cancelled)
            && (forall i | 0 <= i < |s.procs| ::
                  t.procs[i] == if s.procs[i].id == id then s.procs[i].(cancel := Some(ctx)) else s.procs[i])
            && t.cancelled == s.cancelled + if exists i :: 0 <= i < |s.procs| && s.procs[i].id == id then {} else {ctx}
  {
  }

  /** The end of a process marks that process done, and no other. */
  lemma DoneIsTold(s: State, id: nat)
    requires ListInv(s.procs, s.nextId) && ProcPaneInv(s)
    ensures var t := ReceiveDone(s, id);
            && |t.procs| == |s.procs| && t == s.(procs := t.procs)
            && forall i | 0 <= i < |s.procs| ::
                 t.procs[i] == if s.procs[i].id == id then s.procs[i].(done := true) else s.procs[i]
  {
  }

  /** What a process's goroutine sends, in the order in which it sends it. */
  function Life(id: nat): seq<Event> {
    [SendCancel(id), DeliverCancel(id, id), Finish(id), DeliverDone(id)]
  }

  lemma RunPair(lib: Lib, w: World, a: Event, b: Event, rest: seq<Event>)
    requires Inv(lib, w)
    ensures Inv(lib, Step(lib, w, a)) && Inv(lib, Step(lib, Step(lib, w, a), b))
    ensures Run(lib, w, [a, b] + rest) == Run(lib, Step(lib, Step(lib, w, a), b), rest)
  {
    RunCons(lib, w, a, [b] + rest);
    RunCons(lib, Step(lib, w, a), b, rest);
    assert [a] + ([b] + rest) == [a, b] + rest;
  }

  lemma LifeSteps(lib: Lib, w: World, id: nat) returns (sent: World, stored: World, finished: World, told: World)
    requires Inv(lib, w)
    ensures Inv(lib, sent) && Inv(lib, stored) && Inv(lib, finished)
    ensures sent == Step(lib, w, SendCancel(id)) && stored == Step(lib, sent, DeliverCancel(id, id))
    ensures finished == Step(lib, stored, Finish(id)) && told == Step(lib, finished, DeliverDone(id))
    ensures Run(lib, w, Life(id)) == told
  {
    sent := Step(lib, w, SendCancel(id));
    var rest := [Finish(id), DeliverDone(id)];
    RunPair(lib, w, SendCancel(id), DeliverCancel(id, id), rest);
    stored := Step(lib, sent, DeliverCancel(id, id));
    RunPair(lib, stored, Finish(id), DeliverDone(id), []);
    finished, told := Step(lib, stored, Finish(id)), Step(lib, Step(lib, stored, Finish(id)), DeliverDone(id));
    assert rest + [] == rest && [SendCancel(id), DeliverCancel(id, id)] + rest == Life(id);
  }

  lemma CancelArrives(lib: Lib, w: World, id: nat, i: nat)
    requires Inv(lib, w) && id in w.spawned && i < |w.ui.procs| && w.ui.procs[i].id == id
    ensures Inv(lib, Step(lib, w, SendCancel(id)))
    ensures var t := Step(lib, Step(lib, w, SendCancel(id)), DeliverCancel(id, id));
            && t.ui == w.ui.(procs := w.ui.procs[i := w.ui.procs[i].(cancel := Some(id))])
            && t.spawned == w.spawned - {id} && id in t.running && (id, id) !in t.cancelMail
  {
    StepKeepsInv(lib, w, SendCancel(id));
    CancelIsTold(w.ui, id, id);
    assert exists j :: 0 <= j < |w.ui.procs| && w.ui.procs[j].id == id;
    assert ReceiveCancel(w.ui, id, id).procs == w.ui.procs[i := w.ui.procs[i].(cancel := Some(id))];
  }

  lemma EndArrives(lib: Lib, w: World, id: nat, i: nat)
    requires Inv(lib, w) && id in w.running && i < |w.ui.procs| && w.ui.procs[i].id == id
    ensures Inv(lib, Step(lib, w, Finish(id)))
    ensures var t := Step(lib, Step(lib, w, Finish(id)), DeliverDone(id));
            && t.ui.procs == w.ui.procs[i := w.ui.procs[i].(done := true)]
            && t.ui.cancelled == w.ui.cancelled + {id} && t.spawned == w.spawned && t.cancelMail == w.cancelMail
            && id !in t.running && id !in t.doneMail
  {
    StepKeepsInv(lib, w, Finish(id));
    var finished := Step(lib, w, Finish(id));
    DoneIsTold(finished.ui, id);
    assert ReceiveDone(finished.ui, id).procs == w.ui.procs[i := w.ui.procs[i].(done := true)];
  }

  /** A launched process that is left to itself stores its cancel function, ends its context,
      is marked done, and leaves no message behind; the others stay as they are. */
  lemma LifeOfProcess(lib: Lib, w: World, id: nat, i: nat)
    requires Inv(lib, w) && id in w.spawned && i < |w.ui.procs| && w.ui.procs[i].id == id
    ensures var t := Run(lib, w, Life(id));
            && t.ui.procs == w.ui.procs[i := w.ui.procs[i].(cancel := Some(id), done := true)]
            && t.ui.cancelled == w.ui.cancelled + {id} && t.spawned == w.spawned - {id}
            && id !in t.running && (id, id) !in t.cancelMail && id !in t.doneMail
  {
    var sent, stored, finished, told := LifeSteps(lib, w, id);
    CancelArrives(lib, w, id, i);
    EndArrives(lib, stored, id, i);
  }

  /** Reloading shows that it is, until a listing arrives. */
  lemma ReloadAndListing(lib: Lib, w: World, lists: seq<Option<seq<Node>>>, errs: seq<bool>)
    requires Inv(lib, w)
    ensures Step(lib, w, Reload) == w.(ui := w.ui.(loading := true))
    ensures var t := Step(lib, w, Listing(lists, errs));
            && !t.ui.loading && |t.ui.windows| == |w.ui.windows|
            && t == w.(ui := w.ui.(loading := false, windows := t.ui.windows))
  {
  }
}
