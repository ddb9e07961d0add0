/** Why a capacity of one is refused: on such a ring "published k" and "free for k + 1" coincide. */
module MpmcCapacity {
  import opened Words
  import opened Cells
  import opened Operations
  import opened MpmcProtocol
  import opened MpmcRuns

  /** A freshly initialised ring of capacity one with one-byte cells and one thread. */
  const FRESH: State := State(Ring(1, 1, 0, 0, [0], [[0]], [], [], map[]), map[0 := Idle(None)])

  /** Two pushes in a row both succeed and the second destroys the first object unread. */
  lemma CapacityOneLosesObjects() returns (evs: seq<Event>)
    ensures CanRun(FRESH, evs)
    ensures var r := Run(FRESH, evs);
            && r.m.head - r.m.tail == 2 > r.m.n && r.threads == map[0 := Idle(Pushed(1))]
            && |r.m.log| == 2 && r.m.log[0].obj == [7] && r.m.cells == [[9]]
  {
    hide Run, CanRun, Returns;
    var first, s := OneBytePush(FRESH, 0, 7);
    var second, r := OneBytePush(s, 0, 9);
    RunInTwo(FRESH, first, second);
    evs := first + second;
  }
}
