// The checkpoints at the end of a turn (internal/writer/writer.go).
module Writer {
  import opened Wrappers

  // What a turn finds: it couldn't stat the WAL, or its size and what a
  // checkpoint would give.
  datatype Wal = Unknown | Wal(size: nat, outcome: Checkpoint)

  datatype Checkpoint = Emptied | GaveUp | Broken

  // What a turn's end did.
  datatype TurnEnd = NoCheckpoint | Ran(outcome: Checkpoint)

  function EndOf(next: nat, wal: Wal): TurnEnd {
    if wal.Unknown? || wal.size < next then NoCheckpoint else Ran(wal.outcome)
  }

  function NextAfter(next: nat, wal: Wal, step: nat): nat {
    match EndOf(next, wal)
    case NoCheckpoint => next
    case Ran(Emptied) => step
    case Ran(GaveUp) => wal.size + step
    case Ran(Broken) => next
  }

  // The threshold after these turns.
  function Threshold(turns: seq<Wal>, step: nat): nat {
    if turns == [] then step
    else NextAfter(Threshold(turns[..|turns| - 1], step), turns[|turns| - 1], step)
  }

  // The checkpoint of turn i, if it ran, and did its work or gave up.
  function Decision(turns: seq<Wal>, step: nat, i: nat): Option<Checkpoint>
    requires i < |turns|
  {
    match EndOf(Threshold(turns[..i], step), turns[i])
    case Ran(Emptied) => Some(Emptied)
    case Ran(GaveUp) => Some(GaveUp)
    case _ => None
  }

  // The last checkpoint that did its work or gave up sets the threshold: one
  // step once the WAL is emptied, and one step more than the size given up at;
  // with none yet it is one step.
  lemma {:induction false} LastDecides(turns: seq<Wal>, step: nat, n: nat)
    requires n <= |turns| && forall j :: n <= j < |turns| ==> Decision(turns, step, j).None?
    requires n > 0 ==> Decision(turns, step, n - 1).Some?
    ensures Threshold(turns, step) ==
              step + if n > 0 && Decision(turns, step, n - 1) == Some(GaveUp) then turns[n - 1].size else 0
    decreases |turns|
  {
    if turns != [] {
      var init := turns[..|turns| - 1];
      forall j: nat | j < |init| ensures Decision(init, step, j) == Decision(turns, step, j) {
        assert init[..j] == turns[..j];
      }
      if n < |turns| {
        assert Decision(turns, step, |init|).None?;
        LastDecides(init, step, n);
      }
    }
  }

  // So a checkpoint runs at the first turn that finds the WAL that much past
  // the size last given up at.
  lemma RunsOnceGrown(turns: seq<Wal>, step: nat, n: nat, wal: Wal)
    requires n <= |turns| && forall j :: n <= j < |turns| ==> Decision(turns, step, j).None?
    requires n > 0 ==> Decision(turns, step, n - 1).Some?
    ensures var base := if n > 0 && Decision(turns, step, n - 1) == Some(GaveUp) then turns[n - 1].size else 0;
            EndOf(Threshold(turns, step), wal) ==
              if wal.Wal? && wal.size >= base + step then Ran(wal.outcome) else NoCheckpoint
  {
    LastDecides(turns, step, n);
  }

  // How many checkpoints gave up since the last one that emptied the WAL.
  function GivenUp(turns: seq<Wal>, step: nat): nat {
    if turns == [] then 0
    else
      var init := turns[..|turns| - 1];
      match EndOf(Threshold(init, step), turns[|turns| - 1])
      case Ran(GaveUp) => GivenUp(init, step) + 1
      case Ran(Emptied) => 0
      case _ => GivenUp(init, step)
  }

  // Giving up backs off: each try waits for one more step of growth, so the
  // k-th one given up in a row finds a WAL of at least k steps.
  lemma {:induction false} GivingUpBacksOff(turns: seq<Wal>, step: nat)
    ensures Threshold(turns, step) >= (GivenUp(turns, step) + 1) * step
    ensures turns != [] && EndOf(Threshold(turns[..|turns| - 1], step), turns[|turns| - 1]) == Ran(GaveUp) ==>
              turns[|turns| - 1].size >= GivenUp(turns, step) * step
  {
    if turns != [] {
      var init := turns[..|turns| - 1];
      GivingUpBacksOff(init, step);
      var k := GivenUp(init, step);
      assert (k + 2) * step == (k + 1) * step + step;
    }
  }

  class Writer {
    const walCheckpointSize: nat
    var nextCheckpoint: nat

    constructor (walCheckpointSize: nat)
      ensures this.walCheckpointSize == walCheckpointSize
      ensures nextCheckpoint == Threshold([], walCheckpointSize)
    {
      this.walCheckpointSize := walCheckpointSize;
      nextCheckpoint := walCheckpointSize;
    }

    // The end of a turn; ghost turns are those before it.
    method Checkpoint(wal: Wal, ghost turns: seq<Wal>)
      requires nextCheckpoint == Threshold(turns, walCheckpointSize)
      modifies this
      ensures nextCheckpoint == Threshold(turns + [wal], walCheckpointSize) >= walCheckpointSize
    {
      GivingUpBacksOff(turns + [wal], walCheckpointSize);
      assert (turns + [wal])[..|turns + [wal]| - 1] == turns;
      assert (GivenUp(turns + [wal], walCheckpointSize) + 1) * walCheckpointSize >= walCheckpointSize;
      if wal.Unknown? || wal.size < nextCheckpoint {
        return;
      }
      match wal.outcome {
        case Broken =>
        case Emptied => nextCheckpoint := walCheckpointSize;
        case GaveUp => nextCheckpoint := wal.size + walCheckpointSize;
      }
    }
  }
}
