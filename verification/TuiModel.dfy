/** The AI shell's model as the object the handlers update. Every handler keeps the class
    invariant and takes the step that the laws over runs are about; the methods it is made of
    say which step that is. */
module TuiModel {
  import opened Text
  import opened Tui
  import opened Wrappers
  import Seqs
  import opened TuiKeys
  import opened TuiRuns

  // ---------- Row computations ----------

  method FilterNodes(lib: Lib, nodes: seq<Node>, filter: string) returns (kept: seq<Node>)
    ensures kept == Matching(lib, nodes, filter)
  {
    kept := [];
    ghost var rest := nodes;
    for i := 0 to |nodes|
      invariant rest == nodes[i..]
      invariant kept + Matching(lib, rest, filter) == Matching(lib, nodes, filter)
    {
      ghost var later := Matching(lib, rest[1..], filter);
      if lib.matches(nodes[i].name, filter) {
        Seqs.Associate(kept, [nodes[i]], later);
        kept := kept + [nodes[i]];
      } else {
        Seqs.Empty(later);
      }
      rest := rest[1..];
    }
  }

  /** The list behind everything a window shows. */
  method FilteredSortedNodes(lib: Lib, w: Window) returns (items: seq<Node>)
    ensures items == Items(lib, w)
  {
    items := if w.nodes.Some? then w.nodes.value else [];
    if w.filter != "" {
      items := FilterNodes(lib, items, w.filter);
    }
    items := lib.sort(items, w.sortIdx);
  }

  method NodeRows(node: Node, tree: bool) returns (rows: seq<SidebarRow>)
    ensures rows == [SidebarRow(node, "")] + if tree then ChildRows(node.children, node.name) else []
  {
    rows := [SidebarRow(node, "")];
    if tree {
      for c := 0 to |node.children|
        invariant rows == [SidebarRow(node, "")] + ChildRows(node.children, node.name)[..c]
      {
        rows := rows + [SidebarRow(node.children[c], node.name)];
      }
    }
  }

  /** Top-level rows, with each node's children after it in tree view. */
  method SidebarRows(lib: Lib, w: Window) returns (rows: seq<SidebarRow>)
    ensures rows == Rows(lib, w)
  {
    var items := FilteredSortedNodes(lib, w);
    rows := [];
    ghost var rest := items;
    for i := 0 to |items|
      invariant rest == items[i..]
      invariant rows + Flatten(rest, Tree(w)) == Rows(lib, w)
    {
      var more := NodeRows(items[i], Tree(w));
      Seqs.Associate(rows, more, Flatten(rest[1..], Tree(w)));
      rows := rows + more;
      rest := rest[1..];
    }
    Seqs.Empty(rows);
  }

  method IndexOfNamed(rows: seq<SidebarRow>, name: string) returns (index: nat)
    ensures index == IndexOfRowNamed(rows, name)
  {
    if name != "" {
      for i := 0 to |rows|
        invariant FirstNamed(rows, name, i) == FirstNamed(rows, name, 0)
      {
        if rows[i].node.name == name {
          return i;
        }
      }
    }
    index := 0;
  }

  /** One object window takes over its listing, and its selection is clamped. */
  method RefreshWindow(lib: Lib, w: Window, i: nat, lists: seq<Option<seq<Node>>>, errs: seq<bool>) returns (r: Window)
    requires !w.isProcs
    ensures r == Refreshed(lib, w, i, lists, errs)
  {
    r := w;
    if i < |lists| {
      r := r.(nodes := lists[i]);
    }
    if i < |errs| {
      r := r.(failed := errs[i]);
    }
    var rows := SidebarRows(lib, r);
    if r.sel >= |rows| {
      r := r.(sel := if |rows| == 0 then 0 else |rows| - 1);
    }
  }

  class Model {
    const lib: Lib
    var windows: seq<Window>
    var loading: bool
    var focus: nat
    var filtering: bool
    var procs: seq<Proc>
    var nextId: nat
    var procWin: int
    var procSel: nat
    var prompt: Prompt
    var saved: Prompt
    var inProcView: bool
    var cancelled: set<nat>

    function View(): State
      reads this
    {
      State(windows, loading, focus, filtering, procs, nextId, procWin, procSel, prompt, saved, inProcView, cancelled)
    }

    /** Selections exist, the Processes window is last and there exactly when a process is, it
        is shown exactly while focused, ids increase, and stored cancel functions are their
        own processes'. */
    ghost predicate Valid()
      reads this
    {
      StateInv(lib, View())
    }

    constructor (lib: Lib, objects: seq<Window>, typed: Prompt)
      requires forall i | 0 <= i < |objects| :: !objects[i].isProcs && objects[i].sel == 0
      ensures Valid() && View() == Initial(objects, typed)
      ensures windows == objects && (loading <==> objects != []) && focus == 0 && !filtering
      ensures procs == [] && nextId == 0 && cancelled == {} && prompt == typed && !inProcView
    {
      this.lib := lib;
      windows, loading, focus, filtering := objects, objects != [], 0, false;
      procs, nextId, procWin, procSel := [], 0, -1, 0;
      prompt, saved, inProcView, cancelled := typed, Prompt(AskMode, "", 0), false, {};
    }

    // ---------- Prompt save and restore ----------

    method UpdateProcPrompt()
      modifies this
      ensures View() == Tui.UpdateProcPrompt(old(View()))
    {
      if !inProcView || procWin < 0 || |procs| == 0 {
        return;
      }
      if procSel >= |procs| {
        procSel := |procs| - 1;
      }
      prompt := prompt.(text := procs[procSel].command);
    }

    method EnterProcView()
      modifies this
      ensures View() == Tui.EnterProcView(old(View()))
    {
      if inProcView {
        return;
      }
      inProcView := true;
      saved := prompt;
      UpdateProcPrompt();
    }

    method ExitProcView()
      modifies this
      ensures View() == Tui.ExitProcView(old(View()))
    {
      if !inProcView {
        return;
      }
      inProcView := false;
      prompt := saved;
    }

    // ---------- Focus ----------

    /** Only focus and prompt change, and moving back undoes it. */
    method CycleFocus(forward: bool)
      requires Valid()
      modifies this
      ensures Valid() && View() == Tui.CycleFocus(old(View()), forward)
      ensures windows == old(windows) && procs == old(procs) && (windows == [] || focus != old(focus))
      ensures old(Settled(View())) ==>
                var back := Tui.CycleFocus(View(), !forward); back == old(View()).(saved := back.saved)
    {
      CycleFocusLaws(lib, View(), forward);
      MoveFocus(forward);
    }

    method MoveFocus(forward: bool)
      modifies this
      ensures View() == Tui.CycleFocus(old(View()), forward)
    {
      var n := |windows| + 1;
      if n <= 1 {
        return;
      }
      ArriveAt(if forward then (focus + 1) % n else (focus - 1 + n) % n);
    }

    /** Leaves and enters process view as the focus moves. */
    method ArriveAt(next: nat)
      modifies this
      ensures View() == MoveFocusTo(old(View()), next)
    {
      ghost var before := View();
      var previous := focus;
      focus := next;
      if 0 <= previous - 1 < |windows| && windows[previous - 1].isProcs {
        ExitProcView();
      }
      ghost var left :=
        if ProcsAt(before, before.focus) then Tui.ExitProcView(before.(focus := next)) else before.(focus := next);
      assert View() == left;
      if 0 < next <= |windows| && windows[next - 1].isProcs {
        EnterProcView();
      }
    }

    // ---------- Process list ----------

    method RebuildNodes()
      modifies this
      ensures View() == Tui.RebuildNodes(old(View()))
    {
      if |procs| == 0 {
        procSel := 0;
        return;
      }
      if procSel >= |procs| {
        procSel := |procs| - 1;
      }
    }

    method EnsureProcWindow()
      modifies this
      ensures View() == Tui.EnsureProcWindow(old(View()))
    {
      if procWin >= 0 {
        return;
      }
      windows := windows + [PROC_WINDOW];
      procWin := |windows| - 1;
    }

    method RemoveProcWindow()
      requires procWin < |windows|
      modifies this
      ensures View() == Tui.RemoveProcWindow(old(View()))
    {
      if procWin < 0 {
        return;
      }
      if focus - 1 == procWin {
        ExitProcView();
        focus := 0;
      }
      windows := windows[..|windows| - 1];
      procWin := -1;
    }

    method StartBackgroundProcess(command: string)
      requires Valid()
      modifies this
      ensures Valid() && View() == StartProcess(old(View()), command)
      ensures procs == old(procs) + [Proc(old(nextId), command, None, false)] && nextId == old(nextId) + 1
    {
      StartKeepsState(lib, View(), command);
      StartAdds(View(), command);
      AddProcess(command);
    }

    method AddProcess(command: string)
      modifies this
      ensures View() == StartProcess(old(View()), command)
    {
      var p := Proc(nextId, command, None, false);
      nextId := nextId + 1;
      procs := procs + [p];
      EnsureProcWindow();
      RebuildNodes();
    }

    method FindProcess(id: nat) returns (i: nat)
      ensures i == FindProc(procs, id)
    {
      i := 0;
      while i < |procs| && procs[i].id != id
        invariant i <= |procs| && FindProc(procs, id) == i + FindProc(procs[i..], id)
      {
        assert procs[i..][1..] == procs[i + 1..];
        i := i + 1;
      }
    }

    /** A goroutine sends the cancel function of its own process. */
    method HandleProcCancel(id: nat, ctx: nat)
      requires Valid()
      modifies this
      ensures View() == ReceiveCancel(old(View()), id, ctx)
      ensures id == ctx ==> Valid()
      ensures |procs| == old(|procs|)
      ensures forall i | 0 <= i < |procs| ::
                procs[i] == if old(procs)[i].id == id then old(procs)[i].(cancel := Some(ctx)) else old(procs)[i]
    {
      CancelIsTold(View(), id, ctx);
      CancelKeepsState(lib, View(), id);
      var i := FindProcess(id);
      if i < |procs| {
        procs := procs[i := procs[i].(cancel := Some(ctx))];
        return;
      }
      cancelled := cancelled + {ctx};
    }

    method HandleProcDone(id: nat)
      requires Valid()
      modifies this
      ensures Valid() && View() == ReceiveDone(old(View()), id) && |procs| == old(|procs|)
      ensures forall i | 0 <= i < |procs| ::
                procs[i] == if old(procs)[i].id == id then old(procs)[i].(done := true) else old(procs)[i]
    {
      DoneIsTold(View(), id);
      DoneKeepsState(lib, View(), id);
      var i := FindProcess(id);
      if i < |procs| {
        procs := procs[i := procs[i].(done := true)];
        RebuildNodes();
      }
    }

    method KillAllProcs()
      modifies this
      ensures View() == KillAll(old(View())) && (old(Valid()) ==> Valid())
      ensures CalledAll(old(View()), View()) && procs == old(procs)
    {
      KillAllCalls(View());
      ghost var before := cancelled;
      for i := 0 to |procs|
        invariant View() == old(View()).(cancelled := cancelled)
        invariant cancelled + FiredAll(procs[i..]) == before + FiredAll(procs)
      {
        assert procs[i..][1..] == procs[i + 1..];
        if procs[i].cancel.Some? {
          cancelled := cancelled + {procs[i].cancel.value};
        }
      }
    }

    method PurgeFinished()
      requires procWin < |windows|
      modifies this
      ensures View() == AfterRemoval(old(View()).(procs := Unfinished(old(procs))))
    {
      var keep := [];
      for i := 0 to |procs|
        invariant View() == old(View())
        invariant keep + Unfinished(procs[i..]) == Unfinished(procs)
      {
        assert procs[i..][1..] == procs[i + 1..];
        if !procs[i].done {
          keep := keep + [procs[i]];
        }
      }
      procs := keep;
      assert View() == old(View()).(procs := Unfinished(old(procs)));
      Removed();
    }

    method Removed()
      requires procWin < |windows|
      modifies this
      ensures View() == AfterRemoval(old(View()))
    {
      RebuildNodes();
      if |procs| == 0 {
        RemoveProcWindow();
      } else {
        UpdateProcPrompt();
      }
    }

    /** While the Processes window is shown its keys keep the saved prompt, and leaving brings
        it back; the list only ever shrinks. */
    method HandleKeyProcessPane(key: Key)
      requires Valid() && ProcsAt(View(), focus)
      modifies this
      ensures Valid() && View() == ProcKey(old(View()), key)
      ensures ProcsTell(old(View()), View(), key)
      ensures SavedKept(old(View()), View()) && forall p :: p in procs ==> p in old(procs)
    {
      ProcKeyLaws(lib, View(), key);
      ProcKeyIsTold(View(), key);
      ProcessPaneStep(key);
    }

    method ProcessPaneStep(key: Key)
      requires procs != [] ==> procSel < |procs|
      requires procWin < |windows|
      modifies this
      ensures View() == ProcKey(old(View()), key)
    {
      match key
      case Up =>
        if |procs| > 0 && procSel > 0 {
          procSel := procSel - 1;
          UpdateProcPrompt();
        }
      case Down =>
        if procSel < |procs| - 1 {
          procSel := procSel + 1;
          UpdateProcPrompt();
        }
      case Space =>
        if procWin >= 0 {
          windows := windows[procWin := windows[procWin].(collapsed := !windows[procWin].collapsed)];
        }
      case Esc =>
        ExitProcView();
        focus := 0;
      case TabKey => MoveFocus(true);
      case ShiftTab => MoveFocus(false);
      case Runes(text) => HandleProcessRune(text);
      case _ =>
    }

    /** Kill the selected process, then take it off the list. */
    method RemoveSelected()
      requires procSel < |procs| && procWin < |windows|
      modifies this
      ensures View() == DeleteSelected(old(View()))
    {
      var p := procs[procSel];
      if p.cancel.Some? {
        cancelled := cancelled + {p.cancel.value};
      }
      procs := procs[..procSel] + procs[procSel + 1..];
      assert View() == Without(old(View()));
      Removed();
    }

    method HandleProcessRune(text: string)
      requires procs != [] ==> procSel < |procs|
      requires procWin < |windows|
      modifies this
      ensures View() == ProcKey(old(View()), Runes(text))
    {
      if text == "d" {
        if |procs| == 0 {
          return;
        }
        RemoveSelected();
      } else if text == "k" {
        if procSel < |procs| && procs[procSel].cancel.Some? {
          cancelled := cancelled + {procs[procSel].cancel.value};
        }
      } else if text == "p" {
        PurgeFinished();
      } else if text == "D" {
        KillAllProcs();
        procs := [];
        RemoveProcWindow();
      }
    }

    // ---------- Sidebar keys ----------

    /** Where there are rows, the selection is on one of them. */
    method MoveSel(delta: int)
      modifies this
      ensures View() == Tui.MoveSel(lib, old(View()), delta)
      ensures 0 < focus <= |windows| && |Rows(lib, windows[focus - 1])| > 0 ==>
                windows[focus - 1].sel < |Rows(lib, windows[focus - 1])|
    {
      var wi := focus - 1;
      if wi < 0 || wi >= |windows| {
        return;
      }
      var w := windows[wi];
      var rows := SidebarRows(lib, w);
      var last := |rows| - 1;
      if last < 0 {
        return;
      }
      var sel: nat := Clamp(w.sel + delta, 0, last);
      windows := windows[wi := w.(sel := sel)];
      assert Rows(lib, windows[wi]) == rows;
    }

    /** A selected name that is still there is still the selected name. */
    method ToggleTreeView()
      requires 0 < focus <= |windows|
      modifies this
      ensures var wi, before := old(focus) - 1, old(windows);
              View() == old(View()).(windows := before[wi := ToggleTree(lib, before[wi])])
      ensures var name, rows := SelectedName(lib, old(windows)[old(focus) - 1]), Rows(lib, windows[focus - 1]);
              name != "" && (exists k :: 0 <= k < |rows| && rows[k].node.name == name) ==>
                SelectedName(lib, windows[focus - 1]) == name
    {
      var wi := focus - 1;
      ghost var name, t := SelectedName(lib, windows[wi]), ToggleTree(lib, windows[wi]);
      if name != "" && exists k :: 0 <= k < |Rows(lib, t)| && Rows(lib, t)[k].node.name == name {
        ToggleFollowsName(lib, windows[wi]);
      }
      FlipTree();
    }

    method FlipTree()
      requires 0 < focus <= |windows|
      modifies this
      ensures var wi, before := old(focus) - 1, old(windows);
              View() == old(View()).(windows := before[wi := ToggleTree(lib, before[wi])])
    {
      var wi := focus - 1;
      if windows[wi].hierarchical {
        var rows := SidebarRows(lib, windows[wi]);
        var name := if windows[wi].sel < |rows| then rows[windows[wi].sel].node.name else "";
        windows := windows[wi := windows[wi].(treeView := !windows[wi].treeView)];
        rows := SidebarRows(lib, windows[wi]);
        var index := IndexOfNamed(rows, name);
        windows := windows[wi := windows[wi].(sel := index)];
      }
    }

    /** The keys of an object window leave the processes alone. */
    method HandleKeyPane(key: Key)
      requires Valid() && !ProcsAt(View(), focus)
      modifies this
      ensures Valid() && View() == PaneKey(lib, old(View()), key)
      ensures SameProcs(old(View()), View())
    {
      PaneKeyLaws(lib, View(), key);
      PaneStep(key);
    }

    method PaneStep(key: Key)
      modifies this
      ensures View() == PaneKey(lib, old(View()), key)
    {
      var wi := focus - 1;
      if wi < 0 || wi >= |windows| {
        return;
      }
      match key
      case Esc => focus := 0;
      case Up => MoveSel(-1);
      case Down => MoveSel(1);
      case Enter =>
        var rows := SidebarRows(lib, windows[wi]);
        var name := if windows[wi].sel < |rows| then rows[windows[wi].sel].node.name else "";
        if name != "" {
          prompt := prompt.(text := name);
          focus := 0;
        }
      case Space => windows := windows[wi := windows[wi].(collapsed := !windows[wi].collapsed)];
      case TabKey => MoveFocus(true);
      case ShiftTab => MoveFocus(false);
      case Runes(text) => PaneRune(text);
      case _ =>
    }

    method PaneRune(text: string)
      requires View().FocusedPane()
      modifies this
      ensures View() == PaneLetter(lib, old(View()), text)
    {
      var wi := focus - 1;
      if text == "j" {
        MoveSel(1);
      } else if text == "k" {
        MoveSel(-1);
      } else if text == "/" {
        filtering := true;
      } else if text == "s" {
        windows := windows[wi := NextSort(windows[wi])];
      } else if text == "r" {
        loading := true;
      } else if text == "x" {
        ToggleTreeView();
      }
    }

    /** Typing a filter changes the focused window at most, and selects its first row when it
        changes the filter. */
    method HandleKeyFilter(key: Key)
      requires Valid()
      modifies this
      ensures Valid() && View() == FilterKey(old(View()), key)
      ensures SameProcs(old(View()), View()) && prompt == old(prompt) && focus == old(focus)
      ensures |windows| == old(|windows|)
      ensures forall i | 0 <= i < |windows| ::
                windows[i] == old(windows)[i] || (i == focus - 1 && windows[i].sel == 0)
    {
      FilterKeyLaws(lib, View(), key);
      FilterStep(key);
    }

    method FilterStep(key: Key)
      modifies this
      ensures View() == FilterKey(old(View()), key)
    {
      var wi := focus - 1;
      if wi < 0 || wi >= |windows| {
        return;
      }
      match key
      case Esc =>
        filtering := false;
        windows := windows[wi := windows[wi].(filter := "", sel := 0)];
      case Enter => filtering := false;
      case Backspace =>
        if |windows[wi].filter| > 0 {
          windows := windows[wi := windows[wi].(filter := windows[wi].filter[..|windows[wi].filter| - 1], sel := 0)];
        }
      case Runes(text) => windows := windows[wi := windows[wi].(filter := windows[wi].filter + text, sel := 0)];
      case _ =>
    }

    // ---------- Keys in the chat ----------

    method Submit()
      modifies this
      ensures View() == Tui.Submit(lib, old(View())) && SubmitTells(lib, old(View()), View())
    {
      SubmitIsTold(lib, View());
      var line, command := Trim(prompt.text), prompt.mode == CommandMode;
      if line == "" || (command && line[0] != '/' && !lib.wellFormed(line)) {
        return;
      }
      prompt := Prompt(prompt.mode, "", -1);
      if !command || line[0] == '/' {
        return;
      }
      if line == "exit" || line == "quit" {
        KillAllProcs();
      } else if lib.background(line) {
        AddProcess(line);
      }
    }

    /** Ctrl-C, or a line that quits, calls every stored cancel function; a background line
        starts its process. */
    method HandleKeyChat(key: Key, typed: Prompt)
      requires Valid() && focus == 0
      modifies this
      ensures Valid() && View() == ChatKey(lib, old(View()), key, typed)
      ensures ChatTells(lib, old(View()), View(), key, typed)
    {
      ChatKeyKeepsState(lib, View(), key, typed);
      ChatKeyIsTold(lib, View(), key, typed);
      ChatStep(key, typed);
    }

    method ChatStep(key: Key, typed: Prompt)
      modifies this
      ensures View() == ChatKey(lib, old(View()), key, typed)
    {
      match key
      case CtrlC => KillAllProcs();
      case Esc => prompt := Prompt(if prompt.mode == AskMode then CommandMode else AskMode, prompt.text, -1);
      case TabKey =>
        if prompt.mode == AskMode {
          MoveFocus(true);
        } else {
          prompt := typed;
        }
      case Enter => Submit();
      case _ => prompt := typed;
    }

    /** Every key in the idle state, wherever the focus is. */
    method HandleKeyIdle(key: Key, typed: Prompt)
      requires Valid()
      modifies this
      ensures Valid() && View() == PressKey(lib, old(View()), key, typed)
      ensures PressTells(lib, old(View()), View(), key, typed)
      ensures old(inProcView) ==> SavedKept(old(View()), View())
      ensures !old(inProcView) ==> Entered(old(View()), View())
    {
      PressIsTold(lib, View(), key, typed);
      if inProcView {
        PressKeepsSaved(lib, View(), key, typed);
      } else {
        PressEnters(lib, View(), key, typed);
      }
      if key == ShiftTab {
        CycleFocus(false);
      } else if focus != 0 {
        if filtering {
          HandleKeyFilter(key);
        } else if focus - 1 < |windows| && windows[focus - 1].isProcs {
          HandleKeyProcessPane(key);
        } else {
          HandleKeyPane(key);
        }
      } else {
        HandleKeyChat(key, typed);
      }
    }

    // ---------- Listings ----------

    method HandleObjectsDone(lists: seq<Option<seq<Node>>>, errs: seq<bool>)
      requires Valid()
      modifies this
      ensures Valid() && View() == ObjectsDone(lib, old(View()), lists, errs)
    {
      ListingKeepsState(lib, View(), lists, errs);
      TakeListing(lists, errs);
    }

    method TakeListing(lists: seq<Option<seq<Node>>>, errs: seq<bool>)
      modifies this
      ensures View() == ObjectsDone(lib, old(View()), lists, errs)
    {
      loading := false;
      for i := 0 to |windows|
        invariant View() == old(View()).(loading := false, windows := windows)
        invariant |windows| == |old(windows)|
        invariant forall j | 0 <= j < |windows| ::
                    windows[j] == if j < i then Refreshed(lib, old(windows)[j], j, lists, errs) else old(windows)[j]
      {
        if windows[i].isProcs {
          continue;
        }
        var refreshed := RefreshWindow(lib, windows[i], i, lists, errs);
        windows := windows[i := refreshed];
      }
    }
  }
}
