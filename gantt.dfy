/** The task list of the dashboard: phases and their tasks flattened into one
    list of rows (each phase header followed by its tasks), a cursor over that list
    and the scroll offset that keeps the cursor on screen. */
module Gantt {
  import opened Wrappers

  // ---------------------------------------------------------------------------
  // The parts of a task document the list shows
  // ---------------------------------------------------------------------------

  datatype TaskStatus = Pending | InProgress | Completed | Failed | Blocked

  datatype Task = Task(id: string, name: string, status: TaskStatus, agent: Option<string>)

  datatype Phase = Phase(id: string, name: string, tasks: seq<Task>)

  datatype Color = Green | Yellow | DarkGray | Red | Magenta

  /** `status_color` */
  function StatusColor(s: TaskStatus): Color
  {
    match s
    case Completed => Green
    case InProgress => Yellow
    case Pending => DarkGray
    case Failed => Red
    case Blocked => Magenta
  }

  /** `status_icon` */
  function StatusIcon(s: TaskStatus): string
  {
    match s
    case Completed => "[x]"
    case InProgress => "[/]"
    case Pending => "[ ]"
    case Failed => "[!]"
    case Blocked => "[B]"
  }

  /** Every status has its own colour. */
  lemma StatusColorInjective(a: TaskStatus, b: TaskStatus)
    ensures StatusColor(a) == StatusColor(b) <==> a == b
  {
  }

  /** Every status has its own icon, a single character in brackets. */
  lemma StatusIconShape(a: TaskStatus, b: TaskStatus)
    ensures |StatusIcon(a)| == 3 && StatusIcon(a)[0] == '[' && StatusIcon(a)[2] == ']'
    ensures StatusIcon(a) == StatusIcon(b) <==> a == b
  {
    if a != b {
      assert StatusIcon(a)[1] != StatusIcon(b)[1];
    }
  }

  // ---------------------------------------------------------------------------
  // Positions in the flattened list
  // ---------------------------------------------------------------------------

  /** The index of the header of phase `pi`: every earlier phase takes one row for
      its header and one per task. */
  function PhaseStart(phases: seq<Phase>, pi: nat): nat
    requires pi <= |phases|
  {
    if pi == 0 then 0 else PhaseStart(phases, pi - 1) + 1 + |phases[pi - 1].tasks|
  }

  /** The index of task `ti` of phase `pi`: right after its header and earlier tasks. */
  function TaskPos(phases: seq<Phase>, pi: nat, ti: nat): nat
    requires pi < |phases|
  {
    PhaseStart(phases, pi) + 1 + ti
  }

  /** The number of rows: one past the last phase. */
  function ItemCount(phases: seq<Phase>): nat
  {
    PhaseStart(phases, |phases|)
  }

  /** The number of tasks of all phases together. */
  function TotalTasks(phases: seq<Phase>): nat
  {
    if phases == [] then 0 else TotalTasks(phases[..|phases| - 1]) + |phases[|phases| - 1].tasks|
  }

  /** Row `k` is the header of phase `pi`. */
  predicate IsHeaderAt(phases: seq<Phase>, pi: nat, k: nat)
  {
    pi < |phases| && PhaseStart(phases, pi) == k
  }

  /** Row `k` is task `ti` of phase `pi`. */
  predicate IsTaskAt(phases: seq<Phase>, pi: nat, ti: nat, k: nat)
  {
    pi < |phases| && ti < |phases[pi].tasks| && TaskPos(phases, pi, ti) == k
  }

  lemma {:induction false} PhaseStartPrefix(phases: seq<Phase>, n: nat, pi: nat)
    requires pi <= n <= |phases|
    ensures PhaseStart(phases[..n], pi) == PhaseStart(phases, pi)
  {
    if pi > 0 {
      PhaseStartPrefix(phases, n, pi - 1);
      assert phases[..n][pi - 1] == phases[pi - 1];
    }
  }

  /** The list has one row per phase and one per task. */
  lemma {:induction false} ItemCountIsPhasesPlusTasks(phases: seq<Phase>)
    ensures ItemCount(phases) == |phases| + TotalTasks(phases)
  {
    if phases != [] {
      var n := |phases| - 1;
      ItemCountIsPhasesPlusTasks(phases[..n]);
      PhaseStartPrefix(phases, n, n);
    }
  }

  /** Phases start in order, each after the rows of all earlier ones. */
  lemma {:induction false} PhaseStartMonotone(phases: seq<Phase>, pi: nat, pj: nat)
    requires pi < pj <= |phases|
    ensures PhaseStart(phases, pi) + 1 + |phases[pi].tasks| <= PhaseStart(phases, pj)
    decreases pj
  {
    if pi < pj - 1 {
      PhaseStartMonotone(phases, pi, pj - 1);
    }
  }

  /** A header row holds no task. */
  lemma HeaderIsNoTask(phases: seq<Phase>, pi: nat, pj: nat, ti: nat)
    requires pi < |phases| && pj < |phases| && ti < |phases[pj].tasks|
    ensures PhaseStart(phases, pi) != TaskPos(phases, pj, ti)
  {
    if pi < pj {
      PhaseStartMonotone(phases, pi, pj);
    } else if pj < pi {
      PhaseStartMonotone(phases, pj, pi);
    }
  }

  /** Different phases start on different rows, and different tasks sit on
      different rows. */
  lemma PositionsInjective(phases: seq<Phase>, pi: nat, ti: nat, pj: nat, tj: nat)
    requires pi < |phases| && pj < |phases|
    ensures PhaseStart(phases, pi) == PhaseStart(phases, pj) ==> pi == pj
    ensures ti < |phases[pi].tasks| && tj < |phases[pj].tasks| && TaskPos(phases, pi, ti) == TaskPos(phases, pj, tj)
      ==> pi == pj && ti == tj
  {
    if pi < pj {
      PhaseStartMonotone(phases, pi, pj);
    } else if pj < pi {
      PhaseStartMonotone(phases, pj, pi);
    }
  }

  /** Every row below ItemCount is a header or a task. */
  lemma {:induction false} PositionsCover(phases: seq<Phase>, k: nat)
    requires k < ItemCount(phases)
    ensures (exists pi: nat :: IsHeaderAt(phases, pi, k)) || (exists pi: nat, ti: nat :: IsTaskAt(phases, pi, ti, k))
  {
    var n := |phases| - 1;
    PhaseStartPrefix(phases, n, n);
    if k < PhaseStart(phases, n) {
      PositionsCover(phases[..n], k);
      if pi: nat :| IsHeaderAt(phases[..n], pi, k) {
        PhaseStartPrefix(phases, n, pi);
        assert IsHeaderAt(phases, pi, k);
      } else {
        var pi: nat, ti: nat :| IsTaskAt(phases[..n], pi, ti, k);
        PhaseStartPrefix(phases, n, pi);
        assert phases[..n][pi] == phases[pi];
        assert IsTaskAt(phases, pi, ti, k);
      }
    } else if k == PhaseStart(phases, n) {
      assert IsHeaderAt(phases, n, k);
    } else {
      assert IsTaskAt(phases, n, k - PhaseStart(phases, n) - 1, k);
    }
  }

  // ---------------------------------------------------------------------------
  // The rows
  // ---------------------------------------------------------------------------

  /** What a row shows, without its styling. */
  datatype Entry =
    | PhaseHeader(phaseIdx: nat, phaseId: string, phaseName: string)
    | TaskLine(phaseIdx: nat, taskIdx: nat, icon: string, color: Color, taskId: string, taskName: string, agentLabel: string)

  /** A row and whether it is the selected one. */
  datatype Line = Line(entry: Entry, selected: bool)

  /** " @agent" for an assigned task, nothing otherwise. */
  function AgentLabel(agent: Option<string>): string
  {
    match agent
    case None => ""
    case Some(a) => " @" + a
  }

  function HeaderEntry(phases: seq<Phase>, pi: nat): Entry
    requires pi < |phases|
  {
    PhaseHeader(pi, phases[pi].id, phases[pi].name)
  }

  function TaskEntry(phases: seq<Phase>, pi: nat, ti: nat): Entry
    requires pi < |phases| && ti < |phases[pi].tasks|
  {
    var t := phases[pi].tasks[ti];
    TaskLine(pi, ti, StatusIcon(t.status), StatusColor(t.status), t.id, t.name, AgentLabel(t.agent))
  }

  /** The first `n` task rows of phase `pi`, whose header is at row `start`. */
  function TaskRows(phases: seq<Phase>, pi: nat, start: nat, selected: nat, n: nat): seq<Line>
    requires pi < |phases| && n <= |phases[pi].tasks|
  {
    seq(n, ti requires 0 <= ti < n => Line(TaskEntry(phases, pi, ti), start + 1 + ti == selected))
  }

  /** The header row of phase `pi` at row `start`, followed by its task rows. */
  function PhaseRows(phases: seq<Phase>, pi: nat, start: nat, selected: nat): seq<Line>
    requires pi < |phases|
  {
    [Line(HeaderEntry(phases, pi), start == selected)] + TaskRows(phases, pi, start, selected, |phases[pi].tasks|)
  }

  /** The rows of the list: those of every phase in order, each row marked with
      whether its index is `selected`. */
  function Rows(phases: seq<Phase>, selected: nat): seq<Line>
    decreases |phases|
  {
    if phases == [] then []
    else
      var n := |phases| - 1;
      var prev := Rows(phases[..n], selected);
      prev + PhaseRows(phases, n, |prev|, selected)
  }

  /** PhaseRows only looks at its own phase. */
  lemma PhaseRowsPrefix(phases: seq<Phase>, n: nat, pi: nat, start: nat, selected: nat)
    requires pi < n <= |phases|
    ensures PhaseRows(phases[..n], pi, start, selected) == PhaseRows(phases, pi, start, selected)
  {
    assert phases[..n][pi] == phases[pi];
  }

  /** The list has one row per phase header and one per task. */
  lemma {:induction false} RowsLength(phases: seq<Phase>, selected: nat)
    ensures |Rows(phases, selected)| == ItemCount(phases)
  {
    if phases != [] {
      var n := |phases| - 1;
      RowsLength(phases[..n], selected);
      PhaseStartPrefix(phases, n, n);
    }
  }

  /** Phase `pi`'s header is the row at PhaseStart, marked iff that row is selected. */
  lemma {:induction false} RowsHeader(phases: seq<Phase>, selected: nat, pi: nat)
    requires pi < |phases|
    ensures PhaseStart(phases, pi) < |Rows(phases, selected)|
    ensures Rows(phases, selected)[PhaseStart(phases, pi)]
      == Line(HeaderEntry(phases, pi), PhaseStart(phases, pi) == selected)
  {
    var n := |phases| - 1;
    var prev := Rows(phases[..n], selected);
    RowsLength(phases[..n], selected);
    PhaseStartPrefix(phases, n, n);
    assert Rows(phases, selected) == prev + PhaseRows(phases, n, |prev|, selected);
    if pi < n {
      RowsHeader(phases[..n], selected, pi);
      PhaseStartPrefix(phases, n, pi);
      assert phases[..n][pi] == phases[pi];
    }
  }

  /** Task `ti` of phase `pi` is the row at TaskPos, marked iff that row is selected. */
  lemma {:induction false} RowsTask(phases: seq<Phase>, selected: nat, pi: nat, ti: nat)
    requires pi < |phases| && ti < |phases[pi].tasks|
    ensures TaskPos(phases, pi, ti) < |Rows(phases, selected)|
    ensures Rows(phases, selected)[TaskPos(phases, pi, ti)]
      == Line(TaskEntry(phases, pi, ti), TaskPos(phases, pi, ti) == selected)
  {
    var n := |phases| - 1;
    var prev := Rows(phases[..n], selected);
    RowsLength(phases[..n], selected);
    PhaseStartPrefix(phases, n, n);
    var rows := prev + PhaseRows(phases, n, |prev|, selected);
    assert Rows(phases, selected) == rows;
    var k := TaskPos(phases, pi, ti);
    if pi < n {
      RowsTask(phases[..n], selected, pi, ti);
      PhaseStartPrefix(phases, n, pi);
      assert phases[..n][pi] == phases[pi];
      assert rows[k] == prev[k];
    } else {
      assert rows[k] == PhaseRows(phases, n, |prev|, selected)[1 + ti];
      assert PhaseRows(phases, n, |prev|, selected)[1 + ti] == TaskRows(phases, n, |prev|, selected, |phases[n].tasks|)[ti];
    }
  }

  /** Exactly the row at index `selected` is marked. */
  lemma {:induction false} RowsSelected(phases: seq<Phase>, selected: nat, k: nat)
    requires k < |Rows(phases, selected)|
    ensures Rows(phases, selected)[k].selected <==> k == selected
  {
    var n := |phases| - 1;
    var prev := Rows(phases[..n], selected);
    if k < |prev| {
      RowsSelected(phases[..n], selected, k);
    } else if k > |prev| {
      assert Rows(phases, selected)[k] == TaskRows(phases, n, |prev|, selected, |phases[n].tasks|)[k - |prev| - 1];
    }
  }

  /** Read back from the rows: a header row names the phase whose header sits
      there, a task row the task that sits there. */
  lemma RowKind(phases: seq<Phase>, selected: nat, k: nat)
    requires k < ItemCount(phases)
    ensures |Rows(phases, selected)| == ItemCount(phases)
    ensures var e := Rows(phases, selected)[k].entry;
      && (e.PhaseHeader? ==> IsHeaderAt(phases, e.phaseIdx, k) && e == HeaderEntry(phases, e.phaseIdx))
      && (e.TaskLine? ==> IsTaskAt(phases, e.phaseIdx, e.taskIdx, k) && e == TaskEntry(phases, e.phaseIdx, e.taskIdx))
  {
    RowsLength(phases, selected);
    PositionsCover(phases, k);
    if pi: nat :| IsHeaderAt(phases, pi, k) {
      RowsHeader(phases, selected, pi);
    } else {
      var pi: nat, ti: nat :| IsTaskAt(phases, pi, ti, k);
      RowsTask(phases, selected, pi, ti);
    }
  }

  /** `build_lines`: the header of every phase followed by its tasks, the row at
      index `selected` marked. */
  method BuildLines(phases: seq<Phase>, selected: nat) returns (lines: seq<Line>)
    ensures lines == Rows(phases, selected)
  {
    lines := [];
    var idx := 0;
    for pi := 0 to |phases|
      invariant lines == Rows(phases[..pi], selected)
      invariant idx == |lines|
    {
      ghost var prev := lines;
      lines := lines + [Line(HeaderEntry(phases, pi), idx == selected)];
      idx := idx + 1;
      var tasks := phases[pi].tasks;
      for ti := 0 to |tasks|
        invariant lines == prev + [Line(HeaderEntry(phases, pi), |prev| == selected)] + TaskRows(phases, pi, |prev|, selected, ti)
        invariant idx == |lines| == |prev| + 1 + ti
      {
        assert TaskRows(phases, pi, |prev|, selected, ti + 1)
          == TaskRows(phases, pi, |prev|, selected, ti) + [Line(TaskEntry(phases, pi, ti), idx == selected)];
        lines := lines + [Line(TaskEntry(phases, pi, ti), idx == selected)];
        idx := idx + 1;
      }
      assert phases[..pi + 1][..pi] == phases[..pi];
      PhaseRowsPrefix(phases, pi + 1, pi, |prev|, selected);
    }
    assert phases[..|phases|] == phases;
  }

  // ---------------------------------------------------------------------------
  // The cursor
  // ---------------------------------------------------------------------------

  /** `select_next`: one row down, held at the last row; no move in an empty list. */
  function NextIndex(selected: nat, totalItems: nat): (r: nat)
    ensures totalItems > 0 ==> r < totalItems
    ensures totalItems == 0 ==> r == selected
    ensures selected + 1 < totalItems ==> r == selected + 1
    ensures 0 < totalItems <= selected + 1 ==> r == totalItems - 1
  {
    if totalItems > 0 then
      if selected + 1 < totalItems - 1 then selected + 1 else totalItems - 1
    else selected
  }

  /** `select_prev`: one row up, held at row 0. */
  function PrevIndex(selected: nat): (r: nat)
    ensures selected > 0 ==> r == selected - 1
    ensures selected == 0 ==> r == 0
  {
    if selected >= 1 then selected - 1 else 0
  }

  /** Moving down then up returns to a row that is not the last; moving up then down
      returns to a row inside the list that is not the first. */
  lemma NextPrevInverse(selected: nat, totalItems: nat)
    ensures selected + 1 < totalItems ==> PrevIndex(NextIndex(selected, totalItems)) == selected
    ensures 0 < selected < totalItems ==> NextIndex(PrevIndex(selected), totalItems) == selected
  {
  }

  /** At the bounds the cursor stays put. */
  lemma CursorBounds(totalItems: nat)
    ensures totalItems > 0 ==> NextIndex(totalItems - 1, totalItems) == totalItems - 1
    ensures PrevIndex(0) == 0
  {
  }

  /** `render`'s scroll adjustment: scroll up to a selection above the window, down
      to one below it, and otherwise leave the window where it is. */
  function AdjustOffset(selected: nat, offset: nat, visibleHeight: nat): (r: nat)
    ensures visibleHeight > 0 ==> r <= selected < r + visibleHeight
    ensures offset <= selected < offset + visibleHeight ==> r == offset
    ensures visibleHeight == 0 ==> r == (if selected < offset then selected else selected + 1)
  {
    if selected < offset then selected
    else if selected >= offset + visibleHeight then selected - visibleHeight + 1
    else offset
  }

  /** The adjusted window is the one nearest the old offset that shows the selection. */
  lemma AdjustOffsetMinimal(selected: nat, offset: nat, visibleHeight: nat, other: nat)
    requires other <= selected < other + visibleHeight
    ensures var r := AdjustOffset(selected, offset, visibleHeight);
      (if r <= offset then offset - r else r - offset) <= (if other <= offset then offset - other else other - offset)
  {
  }

  /** Adjusting twice changes nothing more. */
  lemma AdjustOffsetIdempotent(selected: nat, offset: nat, visibleHeight: nat)
    requires visibleHeight > 0
    ensures AdjustOffset(selected, AdjustOffset(selected, offset, visibleHeight), visibleHeight)
      == AdjustOffset(selected, offset, visibleHeight)
  {
  }

  /** The rows drawn from a window starting at `offset`, at most `visibleHeight` of them. */
  function Window(lines: seq<Line>, offset: nat, visibleHeight: nat): (r: seq<Line>)
    ensures |r| <= visibleHeight
    ensures offset >= |lines| ==> r == []
    ensures offset < |lines| ==> |r| == if offset + visibleHeight <= |lines| then visibleHeight else |lines| - offset
    ensures forall i | 0 <= i < |r| :: offset + i < |lines| && r[i] == lines[offset + i]
  {
    if offset >= |lines| then []
    else if offset + visibleHeight <= |lines| then lines[offset..offset + visibleHeight]
    else lines[offset..]
  }

  /** The drawing loop of `render`: skip `offset` rows, then take at most
      `visibleHeight` of them. */
  method VisibleRows(lines: seq<Line>, offset: nat, visibleHeight: nat) returns (drawn: seq<Line>)
    ensures drawn == Window(lines, offset, visibleHeight)
  {
    drawn := [];
    var i := 0;
    while i < visibleHeight && offset + i < |lines|
      invariant i <= visibleHeight
      invariant i == 0 || offset + i <= |lines|
      invariant drawn == if i == 0 then [] else lines[offset..offset + i]
    {
      drawn := drawn + [lines[offset + i]];
      i := i + 1;
    }
  }

  /** The selection state of the list view. */
  class GanttState {
    var selected: nat
    var totalItems: nat
    var offset: nat

    /** `GanttState::default()` */
    constructor ()
      ensures selected == 0 && totalItems == 0 && offset == 0
    {
      selected := 0;
      totalItems := 0;
      offset := 0;
    }

    constructor Init(selected: nat, totalItems: nat, offset: nat)
      ensures this.selected == selected && this.totalItems == totalItems && this.offset == offset
    {
      this.selected := selected;
      this.totalItems := totalItems;
      this.offset := offset;
    }

    /** `select_next`; only the cursor moves. */
    method SelectNext()
      modifies this`selected
      ensures selected == NextIndex(old(selected), totalItems)
      ensures totalItems == old(totalItems) && offset == old(offset)
    {
      if totalItems > 0 {
        selected := if selected + 1 < totalItems - 1 then selected + 1 else totalItems - 1;
      }
    }

    /** `select_prev`; only the cursor moves. */
    method SelectPrev()
      modifies this`selected
      ensures selected == PrevIndex(old(selected))
      ensures totalItems == old(totalItems) && offset == old(offset)
    {
      selected := if selected >= 1 then selected - 1 else 0;
    }

    /** `selected_task`: the phase and task of the selected row; None for a header
        or a row past the end. */
    method SelectedTask(phases: seq<Phase>) returns (r: Option<(nat, nat)>)
      ensures r.Some? ==> IsTaskAt(phases, r.value.0, r.value.1, selected)
      ensures r.None? ==> forall pi: nat, ti: nat :: !IsTaskAt(phases, pi, ti, selected)
    {
      var idx := 0;
      for pi := 0 to |phases|
        invariant idx == PhaseStart(phases, pi)
        invariant forall p: nat, t: nat :: p < pi ==> !IsTaskAt(phases, p, t, selected)
      {
        if idx == selected {
          forall p: nat, t: nat | pi <= p < |phases| ensures !IsTaskAt(phases, p, t, selected) {
            if pi < p {
              PhaseStartMonotone(phases, pi, p);
            }
          }
          return None;
        }
        idx := idx + 1;
        for ti := 0 to |phases[pi].tasks|
          invariant idx == PhaseStart(phases, pi) + 1 + ti
          invariant forall t: nat :: t < ti ==> !IsTaskAt(phases, pi, t, selected)
        {
          if idx == selected {
            return Some((pi, ti));
          }
          idx := idx + 1;
        }
      }
      return None;
    }

    /** The row-related part of `render`: rebuild the rows, record their number,
        move the window to the selection and return the rows drawn in it. */
    method Render(phases: seq<Phase>, visibleHeight: nat) returns (drawn: seq<Line>)
      modifies this`totalItems, this`offset
      ensures totalItems == ItemCount(phases)
      ensures offset == AdjustOffset(selected, old(offset), visibleHeight)
      ensures selected == old(selected)
      ensures drawn == Window(Rows(phases, selected), offset, visibleHeight)
    {
      var lines := BuildLines(phases, selected);
      RowsLength(phases, selected);
      totalItems := |lines|;
      if selected < offset {
        offset := selected;
      } else if selected >= offset + visibleHeight {
        offset := selected - visibleHeight + 1;
      }
      drawn := VisibleRows(lines, offset, visibleHeight);
    }
  }

  // ---------------------------------------------------------------------------
  // The unit tests' scenarios
  // ---------------------------------------------------------------------------

  /** Three phases, the first with two tasks, eight tasks in all: eleven rows, the
      second phase's header at row 3 and its first task at row 4. */
  lemma SampleLayout(phases: seq<Phase>)
    requires |phases| == 3 && |phases[0].tasks| == 2 && |phases[1].tasks| > 0
    requires |phases[1].tasks| + |phases[2].tasks| == 6
    ensures ItemCount(phases) == 11 && TotalTasks(phases) == 8
    ensures PhaseStart(phases, 1) == 3 && TaskPos(phases, 0, 0) == 1 && TaskPos(phases, 1, 0) == 4
  {
    assert PhaseStart(phases, 1) == 3;
    assert PhaseStart(phases, 2) == 4 + |phases[1].tasks|;
    ItemCountIsPhasesPlusTasks(phases);
  }

  /** One step down and two up from row 0 of five; one down from the last row. */
  method NavigationScenario() returns (afterNext: nat, afterPrev: nat, afterPrevAgain: nat, capped: nat)
    ensures afterNext == 1 && afterPrev == 0 && afterPrevAgain == 0 && capped == 4
  {
    var gs := new GanttState.Init(0, 5, 0);
    gs.SelectNext();
    afterNext := gs.selected;
    gs.SelectPrev();
    afterPrev := gs.selected;
    gs.SelectPrev();
    afterPrevAgain := gs.selected;
    var top := new GanttState.Init(4, 5, 0);
    top.SelectNext();
    capped := top.selected;
  }

  /** On the sample layout: rows 0 and 3 are headers, rows 1 and 4 the first tasks
      of the first two phases. */
  method SelectedTaskScenario(phases: seq<Phase>) returns (r0: Option<(nat, nat)>, r1: Option<(nat, nat)>, r3: Option<(nat, nat)>, r4: Option<(nat, nat)>)
    requires |phases| == 3 && |phases[0].tasks| == 2 && |phases[1].tasks| > 0
    requires |phases[1].tasks| + |phases[2].tasks| == 6
    ensures r0 == None && r1 == Some((0, 0)) && r3 == None && r4 == Some((1, 0))
  {
    SampleLayout(phases);
    var gs := new GanttState.Init(0, 11, 0);
    r0 := gs.SelectedTask(phases);
    gs := new GanttState.Init(1, 11, 0);
    r1 := gs.SelectedTask(phases);
    assert IsTaskAt(phases, 0, 0, 1);
    PositionsInjective(phases, 0, 0, r1.value.0, r1.value.1);
    gs := new GanttState.Init(3, 11, 0);
    r3 := gs.SelectedTask(phases);
    if r3.Some? {
      HeaderIsNoTask(phases, 1, r3.value.0, r3.value.1);
    }
    gs := new GanttState.Init(4, 11, 0);
    r4 := gs.SelectedTask(phases);
    assert IsTaskAt(phases, 1, 0, 4);
    PositionsInjective(phases, 1, 0, r4.value.0, r4.value.1);
  }
}
