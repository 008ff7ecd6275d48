/**
 The counters of discarded items (src/sentry_client_report.c), as a step system.

 Any number of threads record discards; any number of reporters save the counters, cell by
 cell, and later either deliver what they saved or restore it, cell by cell.  `cells` is the
 number of counters, in the order in which the nested loops visit them.
 */
module ClientReport {
  /** Where a reporter is.  `cursor` is the next cell that its loop visits. */
  datatype Phase = Idle | Saving(cursor: nat) | Holding | Restoring(cursor: nat)

  datatype Reporter = Reporter(phase: Phase, counts: seq<nat>)

  /** `pending` are the global counters.  `recorded` and `delivered` only keep the books: what was
      discarded so far, and what left with a report that was sent. */
  datatype State = State(pending: seq<nat>, reporters: seq<Reporter>, recorded: seq<nat>, delivered: seq<nat>)

  datatype Move =
    | Discard(cell: nat, quantity: int)
    | StartSave(who: nat)
    | SaveCell(who: nat)
    | Deliver(who: nat)
    | StartRestore(who: nat)
    | RestoreCell(who: nat)

  function Cells(s: State): nat {
    |s.pending|
  }

  predicate WellFormed(s: State) {
    && |s.recorded| == |s.pending| && |s.delivered| == |s.pending|
    && forall i :: 0 <= i < |s.reporters| ==> |s.reporters[i].counts| == |s.pending|
  }

  /** One step of a reporter: its new state and what it does to the counters. */
  function ReporterStep(pending: seq<nat>, r: Reporter, m: Move): (Reporter, seq<nat>)
    requires |r.counts| == |pending|
  {
    match m
    case StartSave(_) => (if r.phase.Idle? then r.(phase := Saving(0)) else r, pending)
    case SaveCell(_) =>
      if !r.phase.Saving? then (r, pending)
      else if r.phase.cursor < |pending| then
        var k := r.phase.cursor;
        (Reporter(Saving(k + 1), r.counts[k := pending[k]]), pending[k := 0])
      else (r.(phase := Holding), pending)
    case StartRestore(_) => (if r.phase.Holding? then r.(phase := Restoring(0)) else r, pending)
    case RestoreCell(_) =>
      if !r.phase.Restoring? then (r, pending)
      else if r.phase.cursor < |pending| then
        var k := r.phase.cursor;
        (r.(phase := Restoring(k + 1)), if r.counts[k] > 0 then pending[k := pending[k] + r.counts[k]] else pending)
      else (Reporter(Idle, seq(|pending|, i => 0)), pending)
    case _ => (r, pending)
  }

  function Add(a: seq<nat>, b: seq<nat>): seq<nat>
    requires |a| == |b|
  {
    seq(|a|, i requires 0 <= i < |a| => a[i] + b[i])
  }

  function Step(s: State, m: Move): State
    requires WellFormed(s)
  {
    match m
    case Discard(cell, quantity) =>
      if cell >= Cells(s) || quantity <= 0 then s
      else s.(pending := s.pending[cell := s.pending[cell] + quantity],
              recorded := s.recorded[cell := s.recorded[cell] + quantity])
    case Deliver(who) =>
      if who < |s.reporters| && s.reporters[who].phase.Holding? then
        s.(delivered := Add(s.delivered, s.reporters[who].counts),
           reporters := s.reporters[who := s.reporters[who].(phase := Idle)])
      else s
    case _ =>
      if m.who >= |s.reporters| then s
      else
        var (r, pending) := ReporterStep(s.pending, s.reporters[m.who], m);
        s.(pending := pending, reporters := s.reporters[m.who := r])
  }

  ghost predicate Next(s: State, s': State) {
    WellFormed(s) && exists m :: s' == Step(s, m)
  }

  ghost predicate IsRun(run: seq<State>, cells: nat, reporters: nat) {
    && |run| > 0
    && (var zero: seq<nat> := seq(cells, i => 0);
        run[0] == State(zero, seq(reporters, i => Reporter(Idle, zero)), zero, zero))
    && forall i :: 0 <= i < |run| - 1 ==> Next(run[i], run[i + 1])
  }

  // -------------------------------------------------------------------- conservation

  /** What a reporter holds of a cell: what it has saved and not yet given back or delivered. */
  function Held(r: Reporter, cell: nat): nat
    requires cell < |r.counts|
  {
    match r.phase
    case Idle => 0
    case Saving(cursor) => if cell < cursor then r.counts[cell] else 0
    case Holding => r.counts[cell]
    case Restoring(cursor) => if cell < cursor then 0 else r.counts[cell]
  }

  function AllHeld(reporters: seq<Reporter>, cell: nat): nat
    requires forall i :: 0 <= i < |reporters| ==> cell < |reporters[i].counts|
  {
    if reporters == [] then 0
    else AllHeld(reporters[..|reporters| - 1], cell) + Held(reporters[|reporters| - 1], cell)
  }

  lemma {:induction false} AllHeldUpdate(reporters: seq<Reporter>, who: nat, r: Reporter, cell: nat)
    requires who < |reporters| && cell < |r.counts|
    requires forall i :: 0 <= i < |reporters| ==> cell < |reporters[i].counts|
    ensures AllHeld(reporters[who := r], cell) + Held(reporters[who], cell) == AllHeld(reporters, cell) + Held(r, cell)
  {
    var last := |reporters| - 1;
    if who == last {
      assert reporters[who := r][..last] == reporters[..last];
    } else {
      assert reporters[who := r][..last] == reporters[..last][who := r];
      AllHeldUpdate(reporters[..last], who, r, cell);
    }
  }

  predicate Balanced(s: State, cell: nat)
    requires WellFormed(s) && cell < Cells(s)
  {
    s.recorded[cell] == s.pending[cell] + AllHeld(s.reporters, cell) + s.delivered[cell]
  }

  ghost predicate Inv(s: State) {
    WellFormed(s) && forall cell: nat :: cell < Cells(s) ==> Balanced(s, cell)
  }

  lemma ReporterKeeps(pending: seq<nat>, r: Reporter, m: Move, cell: nat)
    requires |r.counts| == |pending| && cell < |pending|
    ensures var (r', pending') := ReporterStep(pending, r, m);
            && |r'.counts| == |pending'| == |pending|
            && pending'[cell] + Held(r', cell) == pending[cell] + Held(r, cell)
  {
  }

  lemma StepKeepsBalance(s: State, m: Move, cell: nat)
    requires Inv(s) && cell < Cells(s)
    ensures WellFormed(Step(s, m)) && Cells(Step(s, m)) == Cells(s) && Balanced(Step(s, m), cell)
  {
    assert Balanced(s, cell);
    match m
    case Discard(c, quantity) =>
    case Deliver(who) =>
      if who < |s.reporters| && s.reporters[who].phase.Holding? {
        AllHeldUpdate(s.reporters, who, s.reporters[who].(phase := Idle), cell);
      }
    case _ =>
      if m.who < |s.reporters| {
        var r := ReporterStep(s.pending, s.reporters[m.who], m).0;
        ReporterKeeps(s.pending, s.reporters[m.who], m, cell);
        AllHeldUpdate(s.reporters, m.who, r, cell);
      }
  }

  lemma {:induction false} NothingHeld(reporters: seq<Reporter>, cell: nat)
    requires forall i :: 0 <= i < |reporters| ==> cell < |reporters[i].counts| && reporters[i].phase.Idle?
    ensures AllHeld(reporters, cell) == 0
  {
    if reporters != [] {
      NothingHeld(reporters[..|reporters| - 1], cell);
    }
  }

  /** In every run of discards, saves, deliveries and restores, interleaved cell by cell: what was
      recorded in a cell is what is pending there, what reporters hold of it and what was
      delivered. */
  lemma {:induction false} NothingIsLost(run: seq<State>, cells: nat, reporters: nat, n: nat)
    requires IsRun(run, cells, reporters) && n < |run|
    ensures Inv(run[n]) && Cells(run[n]) == cells
  {
    if n == 0 {
      forall cell: nat | cell < cells
        ensures Balanced(run[0], cell)
      {
        NothingHeld(run[0].reporters, cell);
      }
    } else {
      NothingIsLost(run, cells, reporters, n - 1);
      assert Next(run[n - 1], run[n - 1 + 1]);
      var m :| run[n] == Step(run[n - 1], m);
      StepKeepsWellFormed(run[n - 1], m);
      forall cell: nat | cell < cells
        ensures Balanced(run[n], cell)
      {
        StepKeepsBalance(run[n - 1], m, cell);
      }
    }
  }

  lemma StepKeepsWellFormed(s: State, m: Move)
    requires WellFormed(s)
    ensures WellFormed(Step(s, m)) && Cells(Step(s, m)) == Cells(s)
  {
  }

  /** When no reporter is at work, every discard is either still pending or was delivered. */
  lemma QuietMeansAccounted(run: seq<State>, cells: nat, reporters: nat, n: nat, cell: nat)
    requires IsRun(run, cells, reporters) && n < |run| && cell < cells
    requires forall i :: 0 <= i < |run[n].reporters| ==> run[n].reporters[i].phase.Idle?
    ensures Cells(run[n]) == cells && WellFormed(run[n])
    ensures run[n].recorded[cell] == run[n].pending[cell] + run[n].delivered[cell]
  {
    NothingIsLost(run, cells, reporters, n);
    hide IsRun;
    assert Balanced(run[n], cell);
    NothingHeld(run[n].reporters, cell);
  }

  // ----------------------------------------------------------------------- what was said

  /** The state after a history of moves. */
  function After(s: State, moves: seq<Move>): (r: State)
    requires WellFormed(s)
    ensures WellFormed(r) && Cells(r) == Cells(s) && |r.reporters| == |s.reporters|
  {
    if moves == [] then s
    else
      var before := After(s, moves[..|moves| - 1]);
      StepKeepsWellFormed(before, moves[|moves| - 1]);
      Step(before, moves[|moves| - 1])
  }

  function Start(cells: nat, reporters: nat): (s: State)
    ensures WellFormed(s) && Cells(s) == cells && |s.reporters| == reporters
  {
    var zero: seq<nat> := seq(cells, i => 0);
    State(zero, seq(reporters, i => Reporter(Idle, zero)), zero, zero)
  }

  /** What the discards of a history add up to in a cell. */
  function Discarded(moves: seq<Move>, cell: nat): nat {
    if moves == [] then 0
    else
      var m := moves[|moves| - 1];
      Discarded(moves[..|moves| - 1], cell) + if m.Discard? && m.cell == cell && m.quantity > 0 then m.quantity else 0
  }

  /** For every history of discards, saves, deliveries and restores, in any order: what was discarded in
      a cell is what is pending there, what reporters hold of it and what was delivered. */
  lemma {:induction false} DiscardsAreAccounted(cells: nat, reporters: nat, moves: seq<Move>)
    ensures var s := After(Start(cells, reporters), moves);
            forall cell: nat :: cell < cells ==>
              Discarded(moves, cell) == s.recorded[cell]
                == s.pending[cell] + AllHeld(s.reporters, cell) + s.delivered[cell]
  {
    var s := After(Start(cells, reporters), moves);
    if moves == [] {
      forall cell: nat | cell < cells ensures AllHeld(s.reporters, cell) == 0 { NothingHeld(s.reporters, cell); }
    } else {
      var before, m := After(Start(cells, reporters), moves[..|moves| - 1]), moves[|moves| - 1];
      DiscardsAreAccounted(cells, reporters, moves[..|moves| - 1]);
      forall cell: nat | cell < cells ensures Balanced(before, cell) {
        assert Discarded(moves[..|moves| - 1], cell) == before.recorded[cell];
      }
      hide After, AllHeld;
      forall cell: nat | cell < cells
        ensures Discarded(moves, cell) == s.recorded[cell]
                  == s.pending[cell] + AllHeld(s.reporters, cell) + s.delivered[cell]
      {
        StepKeepsBalance(before, m, cell);
      }
    }
  }

  // ------------------------------------------------------------------------------- alone

  /** `n` cells are saved. */
  lemma {:induction false} SaveCells(s: State, who: nat, n: nat)
    requires WellFormed(s) && who < |s.reporters| && s.reporters[who].phase == Saving(0) && n <= Cells(s)
    ensures var s' := After(s, seq(n, i => SaveCell(who)));
            && s'.reporters[who].phase == Saving(n)
            && (forall k :: 0 <= k < n ==> s'.reporters[who].counts[k] == s.pending[k] && s'.pending[k] == 0)
            && (forall k :: n <= k < Cells(s) ==> s'.pending[k] == s.pending[k])
            && s'.delivered == s.delivered
  {
    if n > 0 {
      SaveCells(s, who, n - 1);
      assert seq(n, i => SaveCell(who))[..n - 1] == seq(n - 1, i => SaveCell(who));
      hide AllHeld;
    }
  }

  /** A save that nobody interferes with takes all there is: the reporter has the counts, the counters
      are zero, and a delivery then delivers them. */
  lemma SaveTakesAll(s: State, who: nat)
    requires WellFormed(s) && who < |s.reporters| && s.reporters[who].phase == Saving(0)
    ensures var s' := Step(After(s, seq(Cells(s), i => SaveCell(who))), SaveCell(who));
            && s'.reporters[who] == Reporter(Holding, s.pending)
            && s'.pending == seq(Cells(s), i => 0)
            && WellFormed(s')
            && Step(s', Deliver(who)).delivered == Add(s.delivered, s.pending)
  {
    SaveCells(s, who, Cells(s));
    var full := After(s, seq(Cells(s), i => SaveCell(who)));
    StepKeepsWellFormed(full, SaveCell(who));
    hide After;
    assert full.reporters[who].counts == s.pending;
    assert full.pending == seq(Cells(s), i => 0);
  }

  lemma {:induction false} RestoreCells(s: State, who: nat, n: nat)
    requires WellFormed(s) && who < |s.reporters| && s.reporters[who].phase == Restoring(0) && n <= Cells(s)
    ensures var s' := After(s, seq(n, i => RestoreCell(who)));
            && s'.reporters[who] == s.reporters[who].(phase := Restoring(n))
            && (forall k :: 0 <= k < n ==> s'.pending[k] == s.pending[k] + s.reporters[who].counts[k])
            && (forall k :: n <= k < Cells(s) ==> s'.pending[k] == s.pending[k])
  {
    if n > 0 {
      RestoreCells(s, who, n - 1);
      assert seq(n, i => RestoreCell(who))[..n - 1] == seq(n - 1, i => RestoreCell(who));
      hide AllHeld;
    }
  }

  /** A restore gives everything back that the reporter holds. */
  lemma RestoreGivesBack(s: State, who: nat)
    requires WellFormed(s) && who < |s.reporters| && s.reporters[who].phase == Restoring(0)
    ensures var s' := After(s, seq(Cells(s), i => RestoreCell(who)));
            s'.pending == Add(s.pending, s.reporters[who].counts)
  {
    RestoreCells(s, who, Cells(s));
    hide After;
  }
}
