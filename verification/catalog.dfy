/** The fixed catalog of wash programs and the cursor links between them.
    The five records are constants; `Next` and `Prev` reproduce, link for
    link, the `next`/`previous` pointers that the start-up routine threads
    through them. Those links are not a clean ring: the quick program's
    `previous` link points at the rinse program, so `Prev` skips the spin
    program altogether. */
module Catalog {

  /** One identifier per program, in catalog order (index 0..4). */
  datatype CycleId = Rapido | Diario | Pesado | Enxague | Centrifuga

  /** The parameters of one wash program. Durations are in minutes. */
  datatype WashCycle = WashCycle(
    name: string,
    rinseMinutes: int,   // time spent in each rinse
    rinseCount: int,     // number of rinses
    spinRpm: int,        // spin speed
    spinMinutes: int,    // time spent spinning
    heavy: bool,         // heavy-wash mode
    bubblesOn: bool,     // bubble mode
    image: string)       // icon key

  /** Number of programs in the catalog. */
  const CATALOG_SIZE: nat := 5

  /** Longest total duration over the catalog, in minutes. */
  const MAX_DURATION: int := 23

  /** The record of each program. */
  function Record(c: CycleId): (w: WashCycle)
    ensures w.rinseMinutes >= 0 && w.rinseCount >= 0 && w.spinRpm >= 0 && w.spinMinutes >= 0
    ensures w.spinRpm == 0 <==> w.spinMinutes == 0
    ensures w.rinseCount == 0 <==> w.rinseMinutes == 0
    ensures w.heavy <==> c == Pesado
    ensures w.bubblesOn <==> c in {Rapido, Diario, Pesado}
    ensures 0 < w.rinseMinutes + w.spinMinutes <= MAX_DURATION
    ensures 0 < |w.name| < 32 && 0 < |w.image| < 32
  {
    match c
    case Rapido => WashCycle("Rapido", 5, 3, 900, 5, false, true, "fast")
    case Diario => WashCycle("Diario", 15, 2, 1200, 8, false, true, "day")
    case Pesado => WashCycle("Pesado", 10, 3, 1200, 10, true, true, "heavy")
    case Enxague => WashCycle("Enxague", 10, 1, 0, 0, false, false, "enx")
    case Centrifuga => WashCycle("Centrifuga", 0, 0, 1200, 10, false, false, "cent")
  }

  /** Distinct programs carry distinct names, so the name shown on the
      panel identifies the selected program. */
  lemma NamesIdentifyPrograms(c: CycleId, d: CycleId)
    ensures Record(c).name == Record(d).name <==> c == d
  {
    if c != d {
      match c
      case Rapido => assert Record(c).name[0] == 'R' != Record(d).name[0];
      case Diario => assert Record(c).name[0] == 'D' != Record(d).name[0];
      case Pesado => assert Record(c).name[0] == 'P' != Record(d).name[0];
      case Enxague => assert Record(c).name[0] == 'E' != Record(d).name[0];
      case Centrifuga => assert Record(c).name[0] == 'C' != Record(d).name[0];
    }
  }

  /** Run length in minutes of any program record: rinse time plus spin
      time. */
  function RunLength(w: WashCycle): int
  {
    w.rinseMinutes + w.spinMinutes
  }

  /** Only the rinse and spin times decide the run length: changing the
      name, icon, rinse count, spin speed or either mode flag of a record
      leaves its run length as it was, and a record with a longer rinse or
      spin time (the other one equal) runs longer. */
  lemma RunLengthIgnoresOtherFields(w: WashCycle, name: string, image: string, rinseCount: int,
                                    spinRpm: int, heavy: bool, bubblesOn: bool, extra: nat)
    ensures RunLength(w.(name := name, image := image, rinseCount := rinseCount,
                         spinRpm := spinRpm, heavy := heavy, bubblesOn := bubblesOn)) == RunLength(w)
    ensures RunLength(w.(rinseMinutes := w.rinseMinutes + extra)) == RunLength(w) + extra
    ensures RunLength(w.(spinMinutes := w.spinMinutes + extra)) == RunLength(w) + extra
  {
  }

  /** Run length of a catalog program: the run length of its record,
      positive and at most 23 minutes. */
  function Duration(c: CycleId): (d: int)
    ensures d == RunLength(Record(c))
    ensures 0 < d <= MAX_DURATION
  {
    RunLength(Record(c))
  }

  /** Position of a program in catalog order. */
  function Index(c: CycleId): (i: nat)
    ensures i < CATALOG_SIZE
    ensures FromIndex(i) == c
  {
    match c
    case Rapido => 0
    case Diario => 1
    case Pesado => 2
    case Enxague => 3
    case Centrifuga => 4
  }

  /** The program at a catalog position. */
  function FromIndex(i: nat): (c: CycleId)
    requires i < CATALOG_SIZE
  {
    if i == 0 then Rapido
    else if i == 1 then Diario
    else if i == 2 then Pesado
    else if i == 3 then Enxague
    else Centrifuga
  }

  /** The `next` link: one step forward in catalog order, wrapping from the
      spin program back to the quick program. */
  function Next(c: CycleId): (r: CycleId)
    ensures Index(r) == (Index(c) + 1) % CATALOG_SIZE
  {
    match c
    case Rapido => Diario
    case Diario => Pesado
    case Pesado => Enxague
    case Enxague => Centrifuga
    case Centrifuga => Rapido
  }

  /** The `previous` link. Every program but the quick one links one step
      back in catalog order; the quick one links to the rinse program, so
      no program's `previous` link reaches the spin program. */
  function Prev(c: CycleId): (r: CycleId)
    ensures c != Rapido ==> Index(r) == Index(c) - 1
    ensures c == Rapido ==> r == Enxague
    ensures r != Centrifuga
  {
    match c
    case Rapido => Enxague
    case Diario => Rapido
    case Pesado => Diario
    case Enxague => Pesado
    case Centrifuga => Enxague
  }

  /** The program the start-up routine hands back after linking the catalog. */
  function InitMenuOrder(): (c: CycleId)
    ensures Index(c) == 1
  {
    Diario
  }

  /** `Prev` undoes `Next` everywhere except at the seam: stepping forward
      from the spin program and back again lands on the rinse program. */
  lemma PrevAfterNext(c: CycleId)
    ensures Prev(Next(c)) == c <==> c != Centrifuga
    ensures c == Centrifuga ==> Prev(Next(c)) == Enxague
  {
  }

  /** `Next` undoes `Prev` everywhere except at the quick program, whose
      round trip ends on the spin program. */
  lemma NextAfterPrev(c: CycleId)
    ensures Next(Prev(c)) == c <==> c != Rapido
    ensures c == Rapido ==> Next(Prev(c)) == Centrifuga
  {
  }

  /** `k` presses of the next button. */
  function NextN(c: CycleId, k: nat): CycleId
  {
    if k == 0 then c else Next(NextN(c, k - 1))
  }

  /** `k` presses of the previous button. */
  function PrevN(c: CycleId, k: nat): CycleId
  {
    if k == 0 then c else Prev(PrevN(c, k - 1))
  }

  /** `k` forward steps advance the catalog position by `k`, modulo five. */
  lemma {:induction false} NextNRotates(c: CycleId, k: nat)
    ensures Index(NextN(c, k)) == (Index(c) + k) % CATALOG_SIZE
  {
    if k > 0 {
      NextNRotates(c, k - 1);
    }
  }

  /** Shifting a catalog position by `k` leaves it in place exactly when
      `k` is a multiple of five. */
  lemma ShiftFixesPosition(i: int, k: nat)
    requires 0 <= i < CATALOG_SIZE
    ensures (i + k) % CATALOG_SIZE == i <==> k % CATALOG_SIZE == 0
  {
    var q, r := k / CATALOG_SIZE, k % CATALOG_SIZE;
    assert k == CATALOG_SIZE * q + r;
    assert (i + k) % CATALOG_SIZE == (i + r) % CATALOG_SIZE;
  }

  /** Shifting position `i` by the distance from `i` to `j` reaches `j`. */
  lemma ShiftReachesPosition(i: int, j: int)
    requires 0 <= i < CATALOG_SIZE && 0 <= j < CATALOG_SIZE
    ensures (i + (j - i) % CATALOG_SIZE) % CATALOG_SIZE == j
  {
    if j >= i {
      assert (j - i) % CATALOG_SIZE == j - i;
    } else {
      assert (j - i) % CATALOG_SIZE == j - i + CATALOG_SIZE;
    }
  }

  /** `k` forward steps return to the start exactly when `k` is a multiple
      of five: the `next` links close up after five programs, not sooner. */
  lemma NextReturnsAfterFive(c: CycleId, k: nat)
    ensures NextN(c, k) == c <==> k % CATALOG_SIZE == 0
  {
    NextNRotates(c, k);
    ShiftFixesPosition(Index(c), k);
    if Index(NextN(c, k)) == Index(c) {
      assert FromIndex(Index(NextN(c, k))) == FromIndex(Index(c));
    }
  }

  /** Every program is reached from every other one by forward steps, so
      the `next` links form a single cycle through all five programs. */
  lemma NextReachesEveryProgram(c: CycleId, d: CycleId)
    ensures NextN(c, (Index(d) - Index(c)) % CATALOG_SIZE) == d
  {
    var j := (Index(d) - Index(c)) % CATALOG_SIZE;
    assert 0 <= j < CATALOG_SIZE;
    NextNRotates(c, j);
    ShiftReachesPosition(Index(c), Index(d));
    assert FromIndex(Index(NextN(c, j))) == FromIndex(Index(d));
  }

  /** Repeated `Prev` steps never land on the spin program, and from any
      other program they run round the four-program loop
      quick, rinse, heavy, daily, quick. */
  lemma {:induction false} PrevLoopSkipsSpin(c: CycleId, k: nat)
    ensures k > 0 ==> PrevN(c, k) != Centrifuga
    ensures c != Centrifuga ==> PrevN(c, k + 4) == PrevN(c, k)
  {
    if k == 0 {
      if c != Centrifuga {
        assert PrevN(c, 4) == Prev(Prev(Prev(Prev(c))));
      }
    } else {
      PrevLoopSkipsSpin(c, k - 1);
    }
  }

  /** The quick program's backward orbit, as a user pressing previous sees it. */
  lemma PrevOrbitFromRapido()
    ensures PrevN(Rapido, 1) == Enxague && PrevN(Rapido, 2) == Pesado
    ensures PrevN(Rapido, 3) == Diario && PrevN(Rapido, 4) == Rapido
  {
    assert PrevN(Rapido, 2) == Prev(PrevN(Rapido, 1));
    assert PrevN(Rapido, 3) == Prev(PrevN(Rapido, 2));
    assert PrevN(Rapido, 4) == Prev(PrevN(Rapido, 3));
  }
}
