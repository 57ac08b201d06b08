/** The AI shell's sidebar and background-process state, as a value, with one function per
    handler of the source. `TuiModel` holds the same state in a class and proves that its
    methods compute these functions; the laws over whole runs are in `TuiRuns`. */
module Tui {
  import opened Text
  import opened Wrappers

  // ---------- Sidebar windows ----------

  datatype Node = Node(name: string, kind: string, metrics: seq<int>, children: seq<Node>)

  /** `nodes` is None until the first successful listing; `failed` is a listing error. */
  datatype Window = Window(
    isProcs: bool, hierarchical: bool, nodes: Option<seq<Node>>, failed: bool,
    sel: nat, filter: string, sortIdx: nat, treeView: bool, collapsed: bool)

  /** Code the shell relies on: the case-folding substring test; the sort, of which only this
      is used: it permutes its input; and whether a command line is well formed, and whether
      it runs in the background. */
  datatype Lib = Lib(
    matches: (string, string) -> bool, sort: (seq<Node>, nat) -> seq<Node>,
    wellFormed: string -> bool, background: string -> bool)
  {
    ghost predicate Valid() {
      forall s, mode :: multiset(sort(s, mode)) == multiset(s)
    }
  }

  /** One navigable row: a top-level node, or a child with its parent's name. */
  datatype SidebarRow = SidebarRow(node: Node, parentName: string)

  function Matching(lib: Lib, nodes: seq<Node>, filter: string): (r: seq<Node>) {
    if nodes == [] then []
    else (if lib.matches(nodes[0].name, filter) then [nodes[0]] else []) + Matching(lib, nodes[1..], filter)
  }

  /** The nodes a window shows, filtered and sorted. */
  function Items(lib: Lib, w: Window): seq<Node> {
    var nodes := if w.nodes.Some? then w.nodes.value else [];
    lib.sort(if w.filter != "" then Matching(lib, nodes, w.filter) else nodes, w.sortIdx)
  }

  function ChildRows(children: seq<Node>, parentName: string): seq<SidebarRow> {
    seq(|children|, i requires 0 <= i < |children| => SidebarRow(children[i], parentName))
  }

  function Flatten(items: seq<Node>, tree: bool): seq<SidebarRow> {
    if items == [] then []
    else [SidebarRow(items[0], "")]
         + (if tree then ChildRows(items[0].children, items[0].name) else [])
         + Flatten(items[1..], tree)
  }

  predicate Tree(w: Window) {
    w.treeView && w.hierarchical
  }

  /** Rows in the order in which they are both drawn and selected. */
  function Rows(lib: Lib, w: Window): seq<SidebarRow> {
    Flatten(Items(lib, w), Tree(w))
  }

  function CountRows(items: seq<Node>, tree: bool): nat {
    if items == [] then 0
    else 1 + (if tree then |items[0].children| else 0) + CountRows(items[1..], tree)
  }

  function IndexOfRowNamed(rows: seq<SidebarRow>, name: string): nat {
    if name == "" then 0 else FirstNamed(rows, name, 0)
  }

  function FirstNamed(rows: seq<SidebarRow>, name: string, i: nat): nat
    requires i <= |rows|
    decreases |rows| - i
  {
    if i == |rows| then 0 else if rows[i].node.name == name then i else FirstNamed(rows, name, i + 1)
  }

  // ---------- Processes, prompt, state ----------

  /** `cancel` names the context that the stored cancel function ends. */
  datatype Proc = Proc(id: nat, command: string, cancel: Option<nat>, done: bool)

  datatype Mode = AskMode | CommandMode

  datatype Prompt = Prompt(mode: Mode, text: string, hist: int)

  /** `focus` is 0 for the chat and 1 + i for window i; `procWin` is -1 when there is no
      Processes window. `cancelled` collects the contexts ended so far. */
  datatype State = State(
    windows: seq<Window>, loading: bool, focus: nat, filtering: bool,
    procs: seq<Proc>, nextId: nat, procWin: int, procSel: nat,
    prompt: Prompt, saved: Prompt, inProcView: bool, cancelled: set<nat>)
  {
    predicate FocusedPane() {
      0 < focus <= |windows|
    }
  }

  const PROC_WINDOW := Window(true, false, None, false, 0, "", 0, false, false)

  function Initial(windows: seq<Window>, prompt: Prompt): State {
    State(windows, windows != [], 0, false, [], 0, -1, 0, prompt, Prompt(AskMode, "", 0), false, {})
  }

  // ---------- Prompt save and restore ----------

  function UpdateProcPrompt(s: State): State {
    if !s.inProcView || s.procWin < 0 || s.procs == [] then s
    else
      var sel := if s.procSel >= |s.procs| then |s.procs| - 1 else s.procSel;
      s.(procSel := sel, prompt := s.prompt.(text := s.procs[sel].command))
  }

  function EnterProcView(s: State): State {
    if s.inProcView then s else UpdateProcPrompt(s.(inProcView := true, saved := s.prompt))
  }

  function ExitProcView(s: State): State {
    if !s.inProcView then s else s.(inProcView := false, prompt := s.saved)
  }

  // ---------- Focus ----------

  predicate ProcsAt(s: State, focus: nat) {
    0 < focus <= |s.windows| && s.windows[focus - 1].isProcs
  }

  /** The next or previous pane, the chat among them. */
  function NextFocus(s: State, forward: bool): nat {
    var n := |s.windows| + 1;
    if forward then (s.focus + 1) % n else (s.focus - 1 + n) % n
  }

  function MoveFocusTo(s: State, next: nat): State {
    var left := if ProcsAt(s, s.focus) then ExitProcView(s.(focus := next)) else s.(focus := next);
    if ProcsAt(left, next) then EnterProcView(left) else left
  }

  function CycleFocus(s: State, forward: bool): State {
    if s.windows == [] then s else MoveFocusTo(s, NextFocus(s, forward))
  }

  // ---------- Process list ----------

  function RebuildNodes(s: State): State {
    if s.procs == [] then s.(procSel := 0)
    else if s.procSel >= |s.procs| then s.(procSel := |s.procs| - 1)
    else s
  }

  function EnsureProcWindow(s: State): State {
    if s.procWin >= 0 then s else s.(windows := s.windows + [PROC_WINDOW], procWin := |s.windows|)
  }

  function RemoveProcWindow(s: State): State
    requires s.procWin < |s.windows|
  {
    if s.procWin < 0 then s
    else
      var left := if s.focus - 1 == s.procWin then ExitProcView(s).(focus := 0) else s;
      left.(windows := s.windows[..|s.windows| - 1], procWin := -1)
  }

  function AfterRemoval(s: State): State
    requires s.procWin < |s.windows|
  {
    var clamped := RebuildNodes(s);
    if s.procs == [] then RemoveProcWindow(clamped) else UpdateProcPrompt(clamped)
  }

  function StartProcess(s: State, command: string): State {
    var added := s.(procs := s.procs + [Proc(s.nextId, command, None, false)], nextId := s.nextId + 1);
    RebuildNodes(EnsureProcWindow(added))
  }

  /** Index of the first process with this id, or |procs|. */
  function FindProc(procs: seq<Proc>, id: nat): (i: nat)
    ensures i <= |procs| && (i < |procs| ==> procs[i].id == id)
    ensures forall j | 0 <= j < i :: procs[j].id != id
  {
    if procs == [] then 0 else if procs[0].id == id then 0 else 1 + FindProc(procs[1..], id)
  }

  /** A cancel function for context `ctx` arrives for process `id`. */
  function ReceiveCancel(s: State, id: nat, ctx: nat): State {
    var i := FindProc(s.procs, id);
    if i < |s.procs| then s.(procs := s.procs[i := s.procs[i].(cancel := Some(ctx))])
    else s.(cancelled := s.cancelled + {ctx})
  }

  function ReceiveDone(s: State, id: nat): State {
    var i := FindProc(s.procs, id);
    if i < |s.procs| then RebuildNodes(s.(procs := s.procs[i := s.procs[i].(done := true)])) else s
  }

  function Fired(p: Proc): set<nat> {
    if p.cancel.Some? then {p.cancel.value} else {}
  }

  function FiredAll(procs: seq<Proc>): set<nat> {
    if procs == [] then {} else Fired(procs[0]) + FiredAll(procs[1..])
  }

  function Unfinished(procs: seq<Proc>): seq<Proc> {
    if procs == [] then []
    else (if procs[0].done then [] else [procs[0]]) + Unfinished(procs[1..])
  }

  function KillAll(s: State): State {
    s.(cancelled := s.cancelled + FiredAll(s.procs))
  }

  // ---------- Keys ----------

  datatype Key = Up | Down | Enter | Space | Esc | TabKey | ShiftTab | Backspace | CtrlC | Runes(text: string)

  /** The selected process killed and taken off the list. */
  function Without(s: State): State
    requires s.procSel < |s.procs|
  {
    s.(cancelled := s.cancelled + Fired(s.procs[s.procSel]), procs := s.procs[..s.procSel] + s.procs[s.procSel + 1..])
  }

  function DeleteSelected(s: State): State
    requires s.procSel < |s.procs| && s.procWin < |s.windows|
  {
    AfterRemoval(Without(s))
  }

  function ProcKey(s: State, key: Key): State
    requires s.procs != [] ==> s.procSel < |s.procs|
    requires s.procWin < |s.windows|
  {
    match key
    case Up => if s.procs != [] && s.procSel > 0 then UpdateProcPrompt(s.(procSel := s.procSel - 1)) else s
    case Down => if s.procSel < |s.procs| - 1 then UpdateProcPrompt(s.(procSel := s.procSel + 1)) else s
    case Space =>
      if s.procWin >= 0 then
        s.(windows := s.windows[s.procWin := s.windows[s.procWin].(collapsed := !s.windows[s.procWin].collapsed)])
      else s
    case Esc => ExitProcView(s).(focus := 0)
    case TabKey => CycleFocus(s, true)
    case ShiftTab => CycleFocus(s, false)
    case Runes(text) =>
      if text == "d" then if s.procs == [] then s else DeleteSelected(s)
      else if text == "k" then
        if s.procSel < |s.procs| then s.(cancelled := s.cancelled + Fired(s.procs[s.procSel])) else s
      else if text == "p" then AfterRemoval(s.(procs := Unfinished(s.procs)))
      else if text == "D" then RemoveProcWindow(KillAll(s).(procs := []))
      else s
    case _ => s
  }

  function Clamp(v: int, lo: int, hi: int): int {
    if v < lo then lo else if v > hi then hi else v
  }

  function MoveSel(lib: Lib, s: State, delta: int): State {
    if !s.FocusedPane() then s
    else
      var w := s.windows[s.focus - 1];
      var n := |Rows(lib, w)|;
      if n == 0 then s
      else s.(windows := s.windows[s.focus - 1 := w.(sel := Clamp(w.sel + delta, 0, n - 1))])
  }

  function SelectedName(lib: Lib, w: Window): string {
    var rows := Rows(lib, w);
    if w.sel < |rows| then rows[w.sel].node.name else ""
  }

  function FirstMetrics(nodes: seq<Node>): seq<int> {
    if nodes == [] then [] else if nodes[0].metrics != [] then nodes[0].metrics else FirstMetrics(nodes[1..])
  }

  function NextSort(w: Window): Window {
    var modes := 1 + |FirstMetrics(if w.nodes.Some? then w.nodes.value else [])|;
    w.(sortIdx := (w.sortIdx + 1) % modes, sel := 0)
  }

  function ToggleTree(lib: Lib, w: Window): Window {
    if !w.hierarchical then w
    else
      var toggled := w.(treeView := !w.treeView);
      toggled.(sel := IndexOfRowNamed(Rows(lib, toggled), SelectedName(lib, w)))
  }

  /** The letter keys of an object window. */
  function PaneLetter(lib: Lib, s: State, text: string): State
    requires s.FocusedPane()
  {
    var wi := s.focus - 1;
    var w := s.windows[wi];
    if text == "j" then MoveSel(lib, s, 1)
    else if text == "k" then MoveSel(lib, s, -1)
    else if text == "/" then s.(filtering := true)
    else if text == "s" then s.(windows := s.windows[wi := NextSort(w)])
    else if text == "r" then s.(loading := true)
    else if text == "x" then s.(windows := s.windows[wi := ToggleTree(lib, w)])
    else s
  }

  function PaneKey(lib: Lib, s: State, key: Key): State {
    if !s.FocusedPane() then s
    else
      var wi := s.focus - 1;
      var w := s.windows[wi];
      match key
      case Esc => s.(focus := 0)
      case Up => MoveSel(lib, s, -1)
      case Down => MoveSel(lib, s, 1)
      case Enter =>
        var name := SelectedName(lib, w);
        if name != "" then s.(prompt := s.prompt.(text := name), focus := 0) else s
      case Space => s.(windows := s.windows[wi := w.(collapsed := !w.collapsed)])
      case TabKey => CycleFocus(s, true)
      case ShiftTab => CycleFocus(s, false)
      case Runes(text) => PaneLetter(lib, s, text)
      case _ => s
  }

  function FilterKey(s: State, key: Key): State {
    if !s.FocusedPane() then s
    else
      var wi := s.focus - 1;
      var w := s.windows[wi];
      match key
      case Esc => s.(filtering := false, windows := s.windows[wi := w.(filter := "", sel := 0)])
      case Enter => s.(filtering := false)
      case Backspace =>
        if |w.filter| > 0 then s.(windows := s.windows[wi := w.(filter := w.filter[..|w.filter| - 1], sel := 0)]) else s
      case Runes(text) => s.(windows := s.windows[wi := w.(filter := w.filter + text, sel := 0)])
      case _ => s
  }

  /** Enter in the chat: a command line is refused, quits, starts a background process, or
      leaves the idle state with an empty prompt. */
  function Submit(lib: Lib, s: State): State {
    var line, command := Trim(s.prompt.text), s.prompt.mode == CommandMode;
    if line == "" || (command && line[0] != '/' && !lib.wellFormed(line)) then s
    else
      var cleared := s.(prompt := Prompt(s.prompt.mode, "", -1));
      if !command || line[0] == '/' then cleared
      else if line == "exit" || line == "quit" then KillAll(cleared)
      else if lib.background(line) then StartProcess(cleared, line)
      else cleared
  }

  /** A key in the chat; `typed` is whatever history, completion or the text input turn the
      prompt into. */
  function ChatKey(lib: Lib, s: State, key: Key, typed: Prompt): State {
    match key
    case CtrlC => KillAll(s)
    case Esc => s.(prompt := Prompt(if s.prompt.mode == AskMode then CommandMode else AskMode, s.prompt.text, -1))
    case TabKey => if s.prompt.mode == AskMode then CycleFocus(s, true) else s.(prompt := typed)
    case Enter => Submit(lib, s)
    case _ => s.(prompt := typed)
  }

  /** A key in the idle state. */
  function PressKey(lib: Lib, s: State, key: Key, typed: Prompt): State
    requires s.procs != [] ==> s.procSel < |s.procs|
    requires s.procWin < |s.windows|
  {
    if key == ShiftTab then CycleFocus(s, false)
    else if s.focus != 0 then
      if s.filtering then FilterKey(s, key)
      else if ProcsAt(s, s.focus) then ProcKey(s, key)
      else PaneKey(lib, s, key)
    else ChatKey(lib, s, key, typed)
  }

  // ---------- Listings ----------

  /** One window's share of a listing; either list may be shorter than the sidebar. */
  function Refreshed(lib: Lib, w: Window, i: nat, lists: seq<Option<seq<Node>>>, errs: seq<bool>): Window {
    if w.isProcs then w
    else
      var listed := if i < |lists| then w.(nodes := lists[i]) else w;
      var marked := if i < |errs| then listed.(failed := errs[i]) else listed;
      var n := |Rows(lib, marked)|;
      if marked.sel >= n then marked.(sel := if n == 0 then 0 else n - 1) else marked
  }

  function ObjectsDone(lib: Lib, s: State, lists: seq<Option<seq<Node>>>, errs: seq<bool>): State {
    s.(loading := false,
       windows := seq(|s.windows|, i requires 0 <= i < |s.windows| => Refreshed(lib, s.windows[i], i, lists, errs)))
  }
}
