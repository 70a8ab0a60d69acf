/** Keyboard focus among the dashboard's three panes. */
module Layout {

  datatype FocusedPane = TaskList | Detail | Agents

  /** The panes' positions in the focus cycle, left to right. */
  function PaneIndex(p: FocusedPane): (i: nat)
    ensures i < 3
  {
    match p
    case TaskList => 0
    case Detail => 1
    case Agents => 2
  }

  function PaneAt(i: nat): (p: FocusedPane)
    requires i < 3
    ensures PaneIndex(p) == i
  {
    if i == 0 then TaskList else if i == 1 then Detail else Agents
  }

  /** `FocusedPane::toggle`: the next pane, moving one step around the cycle. */
  function Toggle(p: FocusedPane): (r: FocusedPane)
    ensures PaneIndex(r) == (PaneIndex(p) + 1) % 3
    ensures r != p
  {
    match p
    case TaskList => Detail
    case Detail => Agents
    case Agents => TaskList
  }

  /** The pane `n` toggles away from `p`. */
  function ToggleTimes(p: FocusedPane, n: nat): FocusedPane
  {
    if n == 0 then p else Toggle(ToggleTimes(p, n - 1))
  }

  /** `n` toggles move `n` steps around the cycle of three. */
  lemma {:induction false} ToggleTimesRotates(p: FocusedPane, n: nat)
    ensures ToggleTimes(p, n) == PaneAt((PaneIndex(p) + n) % 3)
  {
    if n > 0 {
      ToggleTimesRotates(p, n - 1);
    }
  }

  /** Three toggles return to the starting pane; one or two never do. */
  lemma ToggleCycle(p: FocusedPane)
    ensures ToggleTimes(p, 3) == p
    ensures ToggleTimes(p, 1) != p && ToggleTimes(p, 2) != p
  {
  }

  /** The pane before `p` in the cycle. */
  function Untoggle(p: FocusedPane): (r: FocusedPane)
    ensures PaneIndex(r) == (PaneIndex(p) + 2) % 3
  {
    match p
    case TaskList => Agents
    case Detail => TaskList
    case Agents => Detail
  }

  /** Toggle is a bijection: every pane has exactly one predecessor, Untoggle's. */
  lemma ToggleBijective(p: FocusedPane, q: FocusedPane)
    ensures Toggle(q) == p <==> q == Untoggle(p)
    ensures Toggle(Untoggle(p)) == p && Untoggle(Toggle(p)) == p
    ensures Toggle(p) == Toggle(q) ==> p == q
  {
  }

  /** The three steps of the cycle, as the unit test lists them. */
  lemma ToggleSteps()
    ensures Toggle(TaskList) == Detail && Toggle(Detail) == Agents && Toggle(Agents) == TaskList
  {
  }
}
