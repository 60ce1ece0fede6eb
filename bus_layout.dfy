/** Seat-layout generation of `BusLayoutService` and the seat listing of
    `BusLayoutController.getSeats`. A sleeper template stores three berths per
    row on each of two decks, numbered U1, U2, ... then L1, L2, ...; a seater
    template stores "<row>A" to "<row>D". The seat table's unique constraint on
    (bus, seat number) rejects an insert onto a taken number, and the inserts
    are not rolled back when a later one fails. */
module BusLayout {
  import opened Wrappers
  import opened Text
  import opened Entities

  datatype Bus = Bus(id: Uuid, operatorId: Option<Uuid>)

  /** One row of table `seats`; `row`, `col` and `deck` are the `seat_position` document. The
      generated `id` is not modelled. */
  datatype SeatRow = SeatRow(busId: Uuid, seatNumber: string, rowNo: string, seatType: string,
                             row: nat, col: nat, deck: string)

  const SleeperTemplate := "SLEEPER_2X1"
  const SeaterTemplate := "SEATER_2X2"
  const BusNotFound := "Bus not found"
  const InvalidTemplate := "Invalid template"
  /** What the store reports when an insert hits the (bus_id, seat_number) unique constraint. */
  const DuplicateSeat := "duplicate key value violates unique constraint on (bus_id, seat_number)"

  /** `storeSeat`: the row written for one seat. */
  function StoredSeat(busId: Uuid, seatNumber: string, row: nat, col: nat, upperDeck: bool): SeatRow
  {
    SeatRow(busId, seatNumber, NatToString(row), if upperDeck then "SLEEPER_UPPER" else "SLEEPER_LOWER",
            row, col, if upperDeck then "UPPER" else "LOWER")
  }

  /** Where deck 0 (upper) or 1 (lower) begins in the sleeper layout. */
  function DeckStart(rows: int, deck: int): nat
  {
    if deck == 0 then 0 else 3 * Rows(rows)
  }

  /** The letter of deck 0 (upper) or 1 (lower). */
  function DeckPrefix(deck: int): string
  {
    if deck == 0 then "U" else "L"
  }

  predicate StartsWithChar(s: string, c: char)
  {
    s != [] && s[0] == c
  }

  /** A row count below one stores nothing. */
  function Rows(rows: int): nat
  {
    if rows > 0 then rows else 0
  }

  /** The k-th berth (from 0) of a deck: numbered k+1 with the deck's letter, three to a row. */
  function Berth(busId: Uuid, upperDeck: bool, k: nat): (s: SeatRow)
    ensures s.busId == busId
    ensures StartsWithChar(s.seatNumber, if upperDeck then 'U' else 'L')
  {
    StoredSeat(busId, (if upperDeck then "U" else "L") + NatToString(k + 1), k / 3 + 1, k % 3 + 1, upperDeck)
  }

  /** The seats `SLEEPER_2X1` stores, in order: the whole upper deck, then the whole lower deck. */
  function SleeperLayout(busId: Uuid, rows: int): (l: seq<SeatRow>)
    ensures |l| == 6 * Rows(rows)
    ensures forall k :: 0 <= k < |l| ==> l[k].busId == busId
  {
    var n := 3 * Rows(rows);
    seq(2 * n, k requires 0 <= k < 2 * n => SleeperBerth(busId, n, k))
  }

  /** The k-th seat of a sleeper layout whose decks hold `n` berths each. */
  function SleeperBerth(busId: Uuid, n: nat, k: nat): (s: SeatRow)
    ensures s.busId == busId
    ensures StartsWithChar(s.seatNumber, if k < n then 'U' else 'L')
  {
    if k < n then Berth(busId, true, k) else Berth(busId, false, k - n)
  }

  function SeatLetter(i: nat): char
    requires i < 4
  {
    "ABCD"[i]
  }

  /** The seats `SEATER_2X2` stores, in order: row by row, A to D, all on the lower deck. */
  function SeaterLayout(busId: Uuid, rows: int): (l: seq<SeatRow>)
    ensures |l| == 4 * Rows(rows)
    ensures forall k :: 0 <= k < |l| ==> l[k].busId == busId
  {
    var n := 4 * Rows(rows);
    seq(n, k requires 0 <= k < n => SeaterSeat(busId, k))
  }

  /** The k-th seat (from 0) of a seater layout: row k / 4 + 1, letter A to D by column. */
  function SeaterSeat(busId: Uuid, k: nat): (s: SeatRow)
    ensures s.busId == busId
  {
    StoredSeat(busId, NatToString(k / 4 + 1) + [SeatLetter(k % 4)], k / 4 + 1, k % 4 + 1, false)
  }

  /** The bus already has a seat with this number. */
  predicate Taken(seats: seq<SeatRow>, s: SeatRow)
  {
    exists i :: 0 <= i < |seats| && seats[i].busId == s.busId && seats[i].seatNumber == s.seatNumber
  }

  /** Saving the rows one by one: the first insert onto a taken number fails and ends the run; the
      rows saved before it stay. */
  function StoreAll(seats: seq<SeatRow>, rows: seq<SeatRow>): (seq<SeatRow>, Result<()>)
    decreases |rows|
  {
    if rows == [] then (seats, Ok(()))
    else if Taken(seats, rows[0]) then (seats, Err(DuplicateSeat))
    else StoreAll(seats + [rows[0]], rows[1..])
  }

  /** Proof helper, with no counterpart in the service: recovers row and column from a position in a
      three-berth row layout. */
  lemma DivMod3(row: nat, c: nat)
    requires 1 <= row && c < 3
    ensures (3 * (row - 1) + c) / 3 + 1 == row && (3 * (row - 1) + c) % 3 == c
  {
  }

  /** Proof helper, with no counterpart in the service: recovers row and column from a position in a
      four-seat row layout. */
  lemma DivMod4(row: nat, c: nat)
    requires 1 <= row && c < 4
    ensures (4 * (row - 1) + c) / 4 + 1 == row && (4 * (row - 1) + c) % 4 == c
  {
  }

  /** Where the berth stored at column `c` (from 0) of `row` on `deck` sits in the layout, and what
      it is: the counter of that deck has reached 3 * (row - 1) + c + 1. */
  lemma SleeperSeatAt(busId: Uuid, rows: int, deck: int, row: int, c: int)
    requires 0 <= deck < 2 && 1 <= row <= Rows(rows) && 0 <= c < 3
    ensures var n := DeckStart(rows, deck) + 3 * (row - 1) + c;
      && n < |SleeperLayout(busId, rows)|
      && SleeperLayout(busId, rows)[n]
         == StoredSeat(busId, DeckPrefix(deck) + NatToString(3 * (row - 1) + 1 + c), row, c + 1, deck == 0)
  {
    var half := 3 * Rows(rows);
    var k := 3 * (row - 1) + c;
    var n := (if deck == 0 then 0 else half) + k;
    DivMod3(row, c);
    assert SleeperLayout(busId, rows)[n] == SleeperBerth(busId, half, n);
    assert SleeperLayout(busId, rows)[n] == Berth(busId, deck == 0, k);
  }

  /** Seats `n` to `n + 2` of `l` are the berths of `row` on `deck`, numbered from `counter`. */
  predicate BerthsAt(l: seq<SeatRow>, n: nat, busId: Uuid, deck: int, row: nat, counter: nat)
  {
    && n + 3 <= |l|
    && l[n] == StoredSeat(busId, DeckPrefix(deck) + NatToString(counter), row, 1, deck == 0)
    && l[n + 1] == StoredSeat(busId, DeckPrefix(deck) + NatToString(counter + 1), row, 2, deck == 0)
    && l[n + 2] == StoredSeat(busId, DeckPrefix(deck) + NatToString(counter + 2), row, 3, deck == 0)
  }

  /** Row `row` of the deck that starts at `start` of `l`: its three berths, numbered on from the
      rows before it. */
  predicate RowAt(l: seq<SeatRow>, start: nat, busId: Uuid, deck: int, row: nat)
    requires row >= 1
  {
    BerthsAt(l, start + 3 * (row - 1), busId, deck, row, 3 * (row - 1) + 1)
  }

  /** Every row of the deck that starts at `start` of `l`. */
  predicate DeckAt(l: seq<SeatRow>, start: nat, busId: Uuid, deck: int, rows: int)
  {
    && start + 3 * Rows(rows) <= |l|
    && forall row :: 1 <= row <= Rows(rows) ==> RowAt(l, start, busId, deck, row)
  }

  lemma SleeperDeckAt(busId: Uuid, rows: int, deck: int)
    requires 0 <= deck < 2
    ensures DeckAt(SleeperLayout(busId, rows), DeckStart(rows, deck), busId, deck, rows)
  {
    forall row | 1 <= row <= Rows(rows)
      ensures RowAt(SleeperLayout(busId, rows), DeckStart(rows, deck), busId, deck, row)
    {
      SleeperRowAt(busId, rows, deck, row);
    }
  }

  /** The three berths of `row` on `deck`, where they sit in the layout. */
  lemma SleeperRowAt(busId: Uuid, rows: int, deck: int, row: int)
    requires 0 <= deck < 2 && 1 <= row <= Rows(rows)
    ensures BerthsAt(SleeperLayout(busId, rows), DeckStart(rows, deck) + 3 * (row - 1), busId, deck, row, 3 * (row - 1) + 1)
  {
    var l, n, counter := SleeperLayout(busId, rows), DeckStart(rows, deck) + 3 * (row - 1), 3 * (row - 1) + 1;
    SleeperSeatAt(busId, rows, deck, row, 0);
    assert l[n] == StoredSeat(busId, DeckPrefix(deck) + NatToString(counter), row, 1, deck == 0);
    SleeperSeatAt(busId, rows, deck, row, 1);
    assert l[n + 1] == StoredSeat(busId, DeckPrefix(deck) + NatToString(counter + 1), row, 2, deck == 0);
    SleeperSeatAt(busId, rows, deck, row, 2);
    assert l[n + 2] == StoredSeat(busId, DeckPrefix(deck) + NatToString(counter + 2), row, 3, deck == 0);
  }

  /** The four seats of seater row `row`, where they sit in the layout. */
  lemma SeaterRowAt(busId: Uuid, rows: int, row: int)
    requires 1 <= row <= Rows(rows)
    ensures var n, l := 4 * (row - 1), SeaterLayout(busId, rows);
      && n + 4 <= |l|
      && l[n] == StoredSeat(busId, NatToString(row) + "A", row, 1, false)
      && l[n + 1] == StoredSeat(busId, NatToString(row) + "B", row, 2, false)
      && l[n + 2] == StoredSeat(busId, NatToString(row) + "C", row, 3, false)
      && l[n + 3] == StoredSeat(busId, NatToString(row) + "D", row, 4, false)
  {
    SeaterSeatAt(busId, rows, row, 0);
    SeaterSeatAt(busId, rows, row, 1);
    SeaterSeatAt(busId, rows, row, 2);
    SeaterSeatAt(busId, rows, row, 3);
  }

  /** The seat stored at column `c` (from 0) of seater row `row`. */
  lemma SeaterSeatAt(busId: Uuid, rows: int, row: int, c: int)
    requires 1 <= row <= Rows(rows) && 0 <= c < 4
    ensures 4 * (row - 1) + c < |SeaterLayout(busId, rows)|
    ensures SeaterLayout(busId, rows)[4 * (row - 1) + c]
         == StoredSeat(busId, NatToString(row) + [SeatLetter(c)], row, c + 1, false)
  {
    var k := 4 * (row - 1) + c;
    DivMod4(row, c);
    assert SeaterLayout(busId, rows)[k] == SeaterSeat(busId, k);
  }

  class BusLayoutService {
    var buses: map<Uuid, Bus>
    /** The `seats` table, in insertion order. */
    var seats: seq<SeatRow>

    constructor (buses: map<Uuid, Bus>)
      ensures this.buses == buses && seats == []
    {
      this.buses := buses;
      seats := [];
    }

    /** `seatRepository.save` of a new seat, the n-th of the run `l`. */
    method StoreStep(seat: SeatRow, ghost l: seq<SeatRow>, ghost n: nat) returns (ok: bool)
      requires n < |l| && l[n] == seat
      modifies this
      ensures buses == old(buses)
      ensures ok <==> !Taken(old(seats), seat)
      ensures seats == if ok then old(seats) + [seat] else old(seats)
      ensures ok ==> StoreAll(seats, l[n + 1..]) == StoreAll(old(seats), l[n..])
      ensures !ok ==> StoreAll(old(seats), l[n..]) == (old(seats), Err(DuplicateSeat))
    {
      assert l[n..][0] == seat && l[n..][1..] == l[n + 1..];
      ok := true;
      for i := 0 to |seats|
        invariant ok <==> forall j :: 0 <= j < i ==> !(seats[j].busId == seat.busId && seats[j].seatNumber == seat.seatNumber)
      {
        if seats[i].busId == seat.busId && seats[i].seatNumber == seat.seatNumber {
          ok := false;
        }
      }
      if ok {
        seats := seats + [seat];
      }
    }

    /** `generateLayout`. */
    method GenerateLayout(busId: Uuid, template: string, rows: int) returns (r: Result<()>)
      modifies this
      ensures buses == old(buses)
      ensures busId !in buses ==> r == Err(BusNotFound) && seats == old(seats)
      ensures busId in buses && template != SleeperTemplate && template != SeaterTemplate ==>
        r == Err(InvalidTemplate) && seats == old(seats)
      ensures busId in buses && template == SleeperTemplate ==>
        (seats, r) == StoreAll(old(seats), SleeperLayout(busId, rows))
      ensures busId in buses && template == SeaterTemplate ==>
        (seats, r) == StoreAll(old(seats), SeaterLayout(busId, rows))
    {
      if busId !in buses {
        return Err(BusNotFound);
      }
      if template == SleeperTemplate {
        r := GenerateSleeper(busId, rows);
      } else if template == SeaterTemplate {
        r := GenerateSeater(busId, rows);
      } else {
        r := Err(InvalidTemplate);
      }
    }

    /** `generateSleeper`: decks 0 (upper) and 1 (lower), rows 1..rows, three berths a row, with one
        counter per deck. */
    method GenerateSleeper(busId: Uuid, rows: int) returns (r: Result<()>)
      modifies this
      ensures buses == old(buses)
      ensures (seats, r) == StoreAll(old(seats), SleeperLayout(busId, rows))
    {
      ghost var l := SleeperLayout(busId, rows);
      ghost var half := 3 * Rows(rows);
      ghost var n := 0;
      var upperCounter, lowerCounter := 1, 1;
      var deck := 0;
      while deck < 2
        invariant 0 <= deck <= 2 && n == if deck < 2 then DeckStart(rows, deck) else 2 * half
        invariant upperCounter == (if deck == 0 then 1 else half + 1)
        invariant lowerCounter == (if deck < 2 then 1 else half + 1)
        invariant buses == old(buses)
        invariant StoreAll(seats, l[n..]) == StoreAll(old(seats), l)
      {
        SleeperDeckAt(busId, rows, deck);
        var ok;
        if deck == 0 {
          ok, upperCounter := StoreDeck(busId, rows, deck, upperCounter, l, n);
        } else {
          ok, lowerCounter := StoreDeck(busId, rows, deck, lowerCounter, l, n);
        }
        if !ok {
          return Err(DuplicateSeat);
        }
        n := n + half;
        deck := deck + 1;
      }
      assert l[n..] == [];
      r := Ok(());
    }

    /** The row loop of `generateSleeper` on one deck, numbering from the deck's counter; the deck
        is the part of the run `l` from `start` on. */
    method StoreDeck(busId: Uuid, rows: int, deck: int, counter: int, ghost l: seq<SeatRow>, ghost start: nat)
      returns (ok: bool, next: int)
      requires 0 <= deck < 2 && counter == 1 && DeckAt(l, start, busId, deck, rows)
      modifies this
      ensures buses == old(buses)
      ensures ok ==> next == 3 * Rows(rows) + 1 && StoreAll(seats, l[start + 3 * Rows(rows)..]) == StoreAll(old(seats), l[start..])
      ensures !ok ==> StoreAll(old(seats), l[start..]) == (seats, Err(DuplicateSeat))
    {
      ghost var n := start;
      next := counter;
      var row := 1;
      while row <= rows
        invariant 1 <= row <= Rows(rows) + 1
        invariant n == start + 3 * (row - 1) && next == 3 * (row - 1) + 1
        invariant buses == old(buses)
        invariant StoreAll(seats, l[n..]) == StoreAll(old(seats), l[start..])
      {
        assert RowAt(l, start, busId, deck, row);
        ok, next := StoreBerths(busId, deck, row, next, l, n);
        if !ok {
          return;
        }
        n := n + 3;
        row := row + 1;
      }
      ok := true;
    }

    /** The body of the row loop of `generateSleeper`: the three berths of one row, left to right,
        numbered from the deck's counter; they are the seats `n` to `n + 2` of the run `l`. */
    method StoreBerths(busId: Uuid, deck: int, row: int, counter: int, ghost l: seq<SeatRow>, ghost n: nat)
      returns (ok: bool, next: int)
      requires 0 <= deck < 2 && 1 <= row && 1 <= counter && BerthsAt(l, n, busId, deck, row, counter)
      modifies this
      ensures buses == old(buses)
      ensures ok ==> next == counter + 3
      ensures ok ==> StoreAll(seats, l[n + 3..]) == StoreAll(old(seats), l[n..])
      ensures !ok ==> StoreAll(old(seats), l[n..]) == (seats, Err(DuplicateSeat))
    {
      ghost var s0 := seats;
      next := counter;
      ok := StoreStep(StoredSeat(busId, DeckPrefix(deck) + NatToString(next), row, 1, deck == 0), l, n);
      if !ok {
        return;
      }
      ghost var s1 := seats;
      next := next + 1;
      ok := StoreStep(StoredSeat(busId, DeckPrefix(deck) + NatToString(next), row, 2, deck == 0), l, n + 1);
      if !ok {
        assert StoreAll(s0, l[n..]) == StoreAll(s1, l[n + 1..]);
        return;
      }
      ghost var s2 := seats;
      assert StoreAll(s0, l[n..]) == StoreAll(s2, l[n + 2..]);
      next := next + 1;
      ok := StoreStep(StoredSeat(busId, DeckPrefix(deck) + NatToString(next), row, 3, deck == 0), l, n + 2);
      next := next + 1;
    }

    /** `generateSeater`: rows 1..rows, seats A to D in cols 1 to 4, all on the lower deck. */
    method GenerateSeater(busId: Uuid, rows: int) returns (r: Result<()>)
      modifies this
      ensures buses == old(buses)
      ensures (seats, r) == StoreAll(old(seats), SeaterLayout(busId, rows))
    {
      ghost var l := SeaterLayout(busId, rows);
      ghost var n := 0;
      var row := 1;
      while row <= rows
        invariant 1 <= row <= Rows(rows) + 1 && n == 4 * (row - 1)
        invariant buses == old(buses)
        invariant StoreAll(seats, l[n..]) == StoreAll(old(seats), l)
      {
        SeaterRowAt(busId, rows, row);
        var ok := StoreSeaterRow(busId, row, l, n);
        if !ok {
          return Err(DuplicateSeat);
        }
        n := n + 4;
        row := row + 1;
      }
      assert l[n..] == [];
      r := Ok(());
    }

    /** The body of the loop of `generateSeater`: the four seats A to D of one row; they are the seats
        `n` to `n + 3` of the run `l`. */
    method StoreSeaterRow(busId: Uuid, row: int, ghost l: seq<SeatRow>, ghost n: nat) returns (ok: bool)
      requires 1 <= row && n + 4 <= |l|
      requires l[n] == StoredSeat(busId, NatToString(row) + "A", row, 1, false)
      requires l[n + 1] == StoredSeat(busId, NatToString(row) + "B", row, 2, false)
      requires l[n + 2] == StoredSeat(busId, NatToString(row) + "C", row, 3, false)
      requires l[n + 3] == StoredSeat(busId, NatToString(row) + "D", row, 4, false)
      modifies this
      ensures buses == old(buses)
      ensures ok ==> StoreAll(seats, l[n + 4..]) == StoreAll(old(seats), l[n..])
      ensures !ok ==> StoreAll(old(seats), l[n..]) == (seats, Err(DuplicateSeat))
    {
      ok := StoreStep(StoredSeat(busId, NatToString(row) + "A", row, 1, false), l, n);
      if !ok {
        return;
      }
      ok := StoreStep(StoredSeat(busId, NatToString(row) + "B", row, 2, false), l, n + 1);
      if !ok {
        return;
      }
      ok := StoreStep(StoredSeat(busId, NatToString(row) + "C", row, 3, false), l, n + 2);
      if !ok {
        return;
      }
      ok := StoreStep(StoredSeat(busId, NatToString(row) + "D", row, 4, false), l, n + 3);
    }
  }

  // ---------------------------------------------------------------------------
  // Properties of the layouts

  /** Within the sleeper layout each deck holds 3 berths per row, numbered from 1 without gaps; the
      upper deck comes first, and a berth is typed upper exactly when it is on the upper deck. */
  lemma SleeperLayoutShape(busId: Uuid, rows: int, k: int)
    requires 0 <= k < |SleeperLayout(busId, rows)|
    ensures var s := SleeperLayout(busId, rows)[k]; var half := 3 * Rows(rows);
      && s.busId == busId
      && (k < half ==> s.seatNumber == "U" + NatToString(k + 1) && s.row == k / 3 + 1 && s.col == k % 3 + 1)
      && (k >= half ==> s.seatNumber == "L" + NatToString(k - half + 1) && s.row == (k - half) / 3 + 1 && s.col == (k - half) % 3 + 1)
      && (s.seatType == "SLEEPER_UPPER" <==> k < half)
      && 1 <= s.col <= 3
  {
    var half := 3 * Rows(rows);
    assert SleeperLayout(busId, rows)[k] == SleeperBerth(busId, half, k);
  }

  /** Every seater seat is typed `SLEEPER_LOWER`, named by its row and a letter A to D. */
  lemma SeaterLayoutShape(busId: Uuid, rows: int, k: int)
    requires 0 <= k < |SeaterLayout(busId, rows)|
    ensures var s := SeaterLayout(busId, rows)[k];
      && s.busId == busId && s.seatType == "SLEEPER_LOWER" && s.deck == "LOWER"
      && s.seatNumber == NatToString(s.row) + [SeatLetter(s.col - 1)]
      && 1 <= s.row <= Rows(rows) && 1 <= s.col <= 4
  {
  }

  /** Two prefixed counters are equal only when the prefixes and the counters are. */
  lemma PrefixedCounterInjective(p: char, a: nat, q: char, b: nat)
    requires [p] + NatToString(a) == [q] + NatToString(b)
    ensures p == q && a == b
  {
    assert ([p] + NatToString(a))[0] == p;
    assert ([p] + NatToString(a))[1..] == NatToString(a);
    assert ([q] + NatToString(b))[1..] == NatToString(b);
    NatToStringInjective(a, b);
  }

  /** A counter followed by a letter determines both. */
  lemma SuffixedCounterInjective(a: nat, x: char, b: nat, y: char)
    requires NatToString(a) + [x] == NatToString(b) + [y]
    ensures a == b && x == y
  {
    var s, t := NatToString(a) + [x], NatToString(b) + [y];
    assert s[..|s| - 1] == NatToString(a);
    assert t[..|t| - 1] == NatToString(b);
    assert s[|s| - 1] == x && t[|t| - 1] == y;
    NatToStringInjective(a, b);
  }

  /** No two seats of one layout share a number. */
  predicate DistinctNumbers(l: seq<SeatRow>)
  {
    forall i, j :: 0 <= i < j < |l| ==> l[i].seatNumber != l[j].seatNumber
  }

  lemma SleeperNumbersDistinct(busId: Uuid, rows: int)
    ensures DistinctNumbers(SleeperLayout(busId, rows))
  {
    var l := SleeperLayout(busId, rows);
    forall i, j | 0 <= i < j < |l| ensures l[i].seatNumber != l[j].seatNumber {
      SleeperNumbersDiffer(busId, rows, i, j);
    }
  }

  lemma SleeperNumbersDiffer(busId: Uuid, rows: int, i: nat, j: nat)
    requires i < j < |SleeperLayout(busId, rows)|
    ensures SleeperLayout(busId, rows)[i].seatNumber != SleeperLayout(busId, rows)[j].seatNumber
  {
    var l := SleeperLayout(busId, rows);
    var half := 3 * Rows(rows);
    SleeperLayoutShape(busId, rows, i);
    SleeperLayoutShape(busId, rows, j);
    var p: char, a: nat := if i < half then 'U' else 'L', if i < half then i + 1 else i - half + 1;
    var q: char, b: nat := if j < half then 'U' else 'L', if j < half then j + 1 else j - half + 1;
    assert l[i].seatNumber == [p] + NatToString(a);
    assert l[j].seatNumber == [q] + NatToString(b);
    if l[i].seatNumber == l[j].seatNumber {
      PrefixedCounterInjective(p, a, q, b);
    }
  }


  lemma SeaterNumbersDistinct(busId: Uuid, rows: int)
    ensures DistinctNumbers(SeaterLayout(busId, rows))
  {
    var l := SeaterLayout(busId, rows);
    forall i, j | 0 <= i < j < |l| ensures l[i].seatNumber != l[j].seatNumber {
      assert l[i] == SeaterSeat(busId, i) && l[j] == SeaterSeat(busId, j);
      SeaterNumbersDiffer(busId, i, j);
    }
  }

  lemma SeaterNumbersDiffer(busId: Uuid, i: nat, j: nat)
    requires i < j
    ensures SeaterSeat(busId, i).seatNumber != SeaterSeat(busId, j).seatNumber
  {
    if SeaterSeat(busId, i).seatNumber == SeaterSeat(busId, j).seatNumber {
      SuffixedCounterInjective(i / 4 + 1, SeatLetter(i % 4), j / 4 + 1, SeatLetter(j % 4));
      SeatLetterInjective(i % 4, j % 4);
    }
  }

  lemma SeatLetterInjective(x: nat, y: nat)
    requires x < 4 && y < 4 && SeatLetter(x) == SeatLetter(y)
    ensures x == y
  {
  }


  /** Rows with distinct numbers for a bus that has no seats yet are all stored, in order. */
  lemma StoreAllFresh(seats: seq<SeatRow>, rows: seq<SeatRow>, busId: Uuid)
    requires DistinctNumbers(rows)
    requires forall k :: 0 <= k < |rows| ==> rows[k].busId == busId
    requires forall i :: 0 <= i < |seats| ==> seats[i].busId != busId
    ensures StoreAll(seats, rows) == (seats + rows, Ok(()))
  {
    StoreAllFreshAgain(seats, rows, busId);
  }

  /** Rows with distinct numbers for one bus, none of which the bus already has, are all stored, in
      order. */
  lemma {:induction false} StoreAllFreshAgain(seats: seq<SeatRow>, rows: seq<SeatRow>, busId: Uuid)
    requires DistinctNumbers(rows)
    requires forall k :: 0 <= k < |rows| ==> rows[k].busId == busId
    requires forall i :: 0 <= i < |seats| && seats[i].busId == busId ==>
      forall k :: 0 <= k < |rows| ==> seats[i].seatNumber != rows[k].seatNumber
    ensures StoreAll(seats, rows) == (seats + rows, Ok(()))
    decreases |rows|
  {
    if rows != [] {
      assert !Taken(seats, rows[0]);
      var rest := rows[1..];
      var more := seats + [rows[0]];
      forall i | 0 <= i < |more| && more[i].busId == busId
        ensures forall k :: 0 <= k < |rest| ==> more[i].seatNumber != rest[k].seatNumber
      {
        forall k | 0 <= k < |rest| ensures more[i].seatNumber != rest[k].seatNumber {
          assert rest[k] == rows[k + 1];
        }
      }
      StoreAllFreshAgain(more, rest, busId);
      assert StoreAll(seats, rows) == StoreAll(more, rest);
      assert more + rest == seats + rows;
    } else {
      assert seats + rows == seats;
    }
  }

  /** Generating a layout for a bus without seats stores the whole layout; generating the same layout
      again fails at its first seat and stores nothing more. */
  lemma GenerateOnceThenFails(seats: seq<SeatRow>, busId: Uuid, rows: int, sleeper: bool)
    requires forall i :: 0 <= i < |seats| ==> seats[i].busId != busId
    requires rows > 0
    ensures var l := if sleeper then SleeperLayout(busId, rows) else SeaterLayout(busId, rows);
      && StoreAll(seats, l) == (seats + l, Ok(()))
      && StoreAll(seats + l, l) == (seats + l, Err(DuplicateSeat))
  {
    var l := if sleeper then SleeperLayout(busId, rows) else SeaterLayout(busId, rows);
    if sleeper { SleeperNumbersDistinct(busId, rows); } else { SeaterNumbersDistinct(busId, rows); }
    StoreAllFresh(seats, l, busId);
    assert (seats + l)[|seats|] == l[0];
    assert Taken(seats + l, l[0]);
  }

  // ---------------------------------------------------------------------------
  // `getSeats`

  datatype SeatResponse = SeatResponse(seatNumber: string, seatType: string, isAvailable: bool)

  /** The three bodies `getSeats` answers with. */
  datatype SeatsView =
    | NotYourBus
    | SingleDeck(deck: string, seats: seq<SeatResponse>)
    | TwoDecks(upperDeck: seq<SeatResponse>, lowerDeck: seq<SeatResponse>)

  /** `findByBus`: the bus's seats in table order. */
  function SeatsOf(seats: seq<SeatRow>, busId: Uuid): (r: seq<SeatRow>)
    ensures forall k :: 0 <= k < |r| ==> r[k].busId == busId
  {
    if seats == [] then []
    else (if seats[0].busId == busId then [seats[0]] else []) + SeatsOf(seats[1..], busId)
  }

  function ToResponses(seats: seq<SeatRow>): (r: seq<SeatResponse>)
    ensures |r| == |seats|
    ensures forall k :: 0 <= k < |r| ==> r[k] == SeatResponse(seats[k].seatNumber, seats[k].seatType, true)
  {
    seq(|seats|, k requires 0 <= k < |seats| => SeatResponse(seats[k].seatNumber, seats[k].seatType, true))
  }

  /** The responses whose number starts with `c`, in their original order. */
  function WithPrefix(rs: seq<SeatResponse>, c: char): (r: seq<SeatResponse>)
    ensures |r| <= |rs|
    ensures forall k :: 0 <= k < |r| ==> StartsWithChar(r[k].seatNumber, c) && r[k] in rs
  {
    if rs == [] then []
    else (if StartsWithChar(rs[0].seatNumber, c) then [rs[0]] else []) + WithPrefix(rs[1..], c)
  }

  /** `isSeater` of `getSeats`: no seat number starts with "U". */
  predicate NoUpperBerth(found: seq<SeatRow>)
  {
    forall k :: 0 <= k < |found| ==> !StartsWithChar(found[k].seatNumber, 'U')
  }

  /** `getSeats`: the owner sees the bus's seats, from `findByBus` in table order, every one available,
      on one deck when no number starts with "U", otherwise split into the "U" seats and the "L" seats. */
  function GetSeats(buses: map<Uuid, Bus>, seats: seq<SeatRow>, busId: Uuid, user: User): (r: Result<SeatsView>)
    ensures busId !in buses ==> r == Err(BusNotFound)
    ensures busId in buses && user.operatorId.None? ==> r == Ok(NotYourBus)
    ensures busId in buses && user.operatorId.Some? && buses[busId].operatorId.None? ==> r == Err(NullPointer)
    ensures busId in buses && user.operatorId.Some? && buses[busId].operatorId.Some? ==>
      (r == Ok(NotYourBus) <==> buses[busId].operatorId != user.operatorId)
    ensures r.Ok? && r.value.SingleDeck? ==>
      && r.value.deck == "lower"
      && forall k :: 0 <= k < |r.value.seats| ==> r.value.seats[k].isAvailable && !StartsWithChar(r.value.seats[k].seatNumber, 'U')
    ensures r.Ok? && r.value.TwoDecks? ==>
      && (forall k :: 0 <= k < |r.value.upperDeck| ==> r.value.upperDeck[k].isAvailable && StartsWithChar(r.value.upperDeck[k].seatNumber, 'U'))
      && (forall k :: 0 <= k < |r.value.lowerDeck| ==> r.value.lowerDeck[k].isAvailable && StartsWithChar(r.value.lowerDeck[k].seatNumber, 'L'))
      && r.value.upperDeck != []
    ensures busId in buses && user.operatorId.Some? && buses[busId].operatorId == user.operatorId ==>
      var found := SeatsOf(seats, busId);
      var dtos := ToResponses(found);
      r == if NoUpperBerth(found) then Ok(SingleDeck("lower", dtos))
           else Ok(TwoDecks(WithPrefix(dtos, 'U'), WithPrefix(dtos, 'L')))
  {
    if busId !in buses then Err(BusNotFound)
    else
      var bus := buses[busId];
      if user.operatorId.None? then Ok(NotYourBus)
      else if bus.operatorId.None? then Err(NullPointer)
      else if bus.operatorId.value != user.operatorId.value then Ok(NotYourBus)
      else
        var found := SeatsOf(seats, busId);
        var dtos := ToResponses(found);
        if NoUpperBerth(found) then Ok(SingleDeck("lower", dtos))
        else
          var upper := WithPrefix(dtos, 'U');
          assert upper != [] by {
            var k :| 0 <= k < |found| && StartsWithChar(found[k].seatNumber, 'U');
            WithPrefixKeeps(dtos, 'U', k);
          }
          Ok(TwoDecks(upper, WithPrefix(dtos, 'L')))
  }

  lemma {:induction false} WithPrefixKeeps(rs: seq<SeatResponse>, c: char, k: int)
    requires 0 <= k < |rs| && StartsWithChar(rs[k].seatNumber, c)
    ensures rs[k] in WithPrefix(rs, c)
    decreases |rs|
  {
    if k > 0 {
      WithPrefixKeeps(rs[1..], c, k - 1);
    }
  }

  lemma {:induction false} WithPrefixAppend(a: seq<SeatResponse>, b: seq<SeatResponse>, c: char)
    ensures WithPrefix(a + b, c) == WithPrefix(a, c) + WithPrefix(b, c)
    decreases |a|
  {
    if a != [] {
      var h := if StartsWithChar(a[0].seatNumber, c) then [a[0]] else [];
      assert (a + b)[0] == a[0];
      assert (a + b)[1..] == a[1..] + b;
      assert WithPrefix(a + b, c) == h + WithPrefix(a[1..] + b, c);
      assert WithPrefix(a, c) == h + WithPrefix(a[1..], c);
      WithPrefixAppend(a[1..], b, c);
      assert h + (WithPrefix(a[1..], c) + WithPrefix(b, c)) == (h + WithPrefix(a[1..], c)) + WithPrefix(b, c);
    } else {
      assert a + b == b;
    }
  }

  /** A seat whose number starts with neither "U" nor "L" is in neither deck of the split. */
  lemma {:induction false} WithPrefixCount(rs: seq<SeatResponse>)
    ensures |WithPrefix(rs, 'U')| + |WithPrefix(rs, 'L')| + |Neither(rs)| == |rs|
    decreases |rs|
  {
    if rs != [] {
      WithPrefixCount(rs[1..]);
    }
  }

  /** Proof helper, with no counterpart in the controller: the responses that neither deck keeps. */
  function Neither(rs: seq<SeatResponse>): seq<SeatResponse>
  {
    if rs == [] then []
    else
      var keep := !StartsWithChar(rs[0].seatNumber, 'U') && !StartsWithChar(rs[0].seatNumber, 'L');
      (if keep then [rs[0]] else []) + Neither(rs[1..])
  }

  lemma {:induction false} WithPrefixAll(rs: seq<SeatResponse>, c: char)
    requires forall k :: 0 <= k < |rs| ==> StartsWithChar(rs[k].seatNumber, c)
    ensures WithPrefix(rs, c) == rs
    decreases |rs|
  {
    if rs != [] {
      WithPrefixAll(rs[1..], c);
    }
  }

  lemma {:induction false} WithPrefixNone(rs: seq<SeatResponse>, c: char)
    requires forall k :: 0 <= k < |rs| ==> !StartsWithChar(rs[k].seatNumber, c)
    ensures WithPrefix(rs, c) == []
    decreases |rs|
  {
    if rs != [] {
      WithPrefixNone(rs[1..], c);
    }
  }

  lemma {:induction false} SeatsOfAll(l: seq<SeatRow>, busId: Uuid)
    requires forall k :: 0 <= k < |l| ==> l[k].busId == busId
    ensures SeatsOf(l, busId) == l
    decreases |l|
  {
    if l != [] {
      SeatsOfAll(l[1..], busId);
    }
  }

  /** Appending seats of the bus to the table appends them to what `findByBus` returns. */
  lemma {:induction false} SeatsOfAppend(seats: seq<SeatRow>, l: seq<SeatRow>, busId: Uuid)
    requires forall k :: 0 <= k < |l| ==> l[k].busId == busId
    ensures SeatsOf(seats + l, busId) == SeatsOf(seats, busId) + l
    decreases |seats|
  {
    if seats != [] {
      assert (seats + l)[0] == seats[0];
      assert (seats + l)[1..] == seats[1..] + l;
      SeatsOfAppend(seats[1..], l, busId);
    } else {
      assert seats + l == l;
      SeatsOfAll(l, busId);
    }
  }

  /** The first half of a sleeper layout is numbered with "U", the second half with "L". */
  lemma SleeperHalves(busId: Uuid, rows: int)
    ensures var l := SleeperLayout(busId, rows); var half := 3 * Rows(rows);
      && (forall k :: 0 <= k < half ==> StartsWithChar(l[k].seatNumber, 'U'))
      && (forall k :: half <= k < |l| ==> StartsWithChar(l[k].seatNumber, 'L'))
  {
    var l := SleeperLayout(busId, rows);
    var half := 3 * Rows(rows);
    forall k | 0 <= k < |l| ensures StartsWithChar(l[k].seatNumber, if k < half then 'U' else 'L') {
      assert l[k] == SleeperBerth(busId, half, k);
    }
  }

  /** Every seater seat number starts with a digit, never with "U". */
  lemma SeaterNumbersStartWithDigit(busId: Uuid, rows: int)
    ensures forall k :: 0 <= k < |SeaterLayout(busId, rows)| ==> !StartsWithChar(SeaterLayout(busId, rows)[k].seatNumber, 'U')
  {
    var l := SeaterLayout(busId, rows);
    forall k | 0 <= k < |l| ensures !StartsWithChar(l[k].seatNumber, 'U') {
      var d := NatToString(k / 4 + 1);
      assert l[k].seatNumber == d + [SeatLetter(k % 4)];
      assert l[k].seatNumber[0] == d[0];
    }
  }

  lemma ResponsesKeepPrefix(l: seq<SeatRow>, c: char, starts: bool)
    requires forall k :: 0 <= k < |l| ==> StartsWithChar(l[k].seatNumber, c) == starts
    ensures forall k :: 0 <= k < |ToResponses(l)| ==> StartsWithChar(ToResponses(l)[k].seatNumber, c) == starts
  {
  }

  /** The "U" and "L" filters split the responses of a sleeper layout into its two halves. */
  lemma SleeperResponsesSplit(busId: Uuid, rows: int)
    ensures var l := SleeperLayout(busId, rows); var half := 3 * Rows(rows);
      && ToResponses(l) == ToResponses(l[..half]) + ToResponses(l[half..])
      && WithPrefix(ToResponses(l), 'U') == ToResponses(l[..half])
      && WithPrefix(ToResponses(l), 'L') == ToResponses(l[half..])
  {
    var l := SleeperLayout(busId, rows);
    var half := 3 * Rows(rows);
    var upper, lower := l[..half], l[half..];
    SleeperHalves(busId, rows);
    var ru, rl := ToResponses(upper), ToResponses(lower);
    assert ToResponses(l) == ru + rl;
    ResponsesKeepPrefix(upper, 'U', true);
    ResponsesKeepPrefix(upper, 'L', false);
    ResponsesKeepPrefix(lower, 'U', false);
    ResponsesKeepPrefix(lower, 'L', true);
    WithPrefixAppend(ru, rl, 'U');
    WithPrefixAppend(ru, rl, 'L');
    WithPrefixAll(ru, 'U');
    WithPrefixNone(rl, 'U');
    WithPrefixNone(ru, 'L');
    WithPrefixAll(rl, 'L');
  }

  /** Once a bus without seats has received a layout, `findByBus` returns exactly that layout. */
  lemma FreshBusSeats(seats: seq<SeatRow>, l: seq<SeatRow>, busId: Uuid)
    requires forall i :: 0 <= i < |seats| ==> seats[i].busId != busId
    requires forall k :: 0 <= k < |l| ==> l[k].busId == busId
    ensures SeatsOf(seats + l, busId) == l
  {
    SeatsOfAppend(seats, l, busId);
    SeatsOfNone(seats, busId);
  }

  /** After a sleeper layout is generated for a bus without seats, its owner sees the upper deck as
      the first half of the layout and the lower deck as the second half. */
  lemma SleeperBusSplitsIntoDecks(buses: map<Uuid, Bus>, seats: seq<SeatRow>, busId: Uuid, user: User, rows: int)
    requires busId in buses && buses[busId].operatorId.Some? && buses[busId].operatorId == user.operatorId
    requires forall i :: 0 <= i < |seats| ==> seats[i].busId != busId
    requires rows > 0
    ensures var l := SleeperLayout(busId, rows);
      GetSeats(buses, seats + l, busId, user) == Ok(TwoDecks(ToResponses(l[..3 * rows]), ToResponses(l[3 * rows..])))
  {
    var l := SleeperLayout(busId, rows);
    FreshBusSeats(seats, l, busId);
    SleeperHalves(busId, rows);
    assert StartsWithChar(l[0].seatNumber, 'U');
    SleeperResponsesSplit(busId, rows);
  }

  /** After a seater layout is generated for a bus without seats, its owner sees one lower deck holding
      the whole layout. */
  lemma SeaterBusIsSingleDeck(buses: map<Uuid, Bus>, seats: seq<SeatRow>, busId: Uuid, user: User, rows: int)
    requires busId in buses && buses[busId].operatorId.Some? && buses[busId].operatorId == user.operatorId
    requires forall i :: 0 <= i < |seats| ==> seats[i].busId != busId
    ensures GetSeats(buses, seats + SeaterLayout(busId, rows), busId, user)
         == Ok(SingleDeck("lower", ToResponses(SeaterLayout(busId, rows))))
  {
    FreshBusSeats(seats, SeaterLayout(busId, rows), busId);
    SeaterNumbersStartWithDigit(busId, rows);
  }

  lemma {:induction false} SeatsOfNone(seats: seq<SeatRow>, busId: Uuid)
    requires forall i :: 0 <= i < |seats| ==> seats[i].busId != busId
    ensures SeatsOf(seats, busId) == []
    decreases |seats|
  {
    if seats != [] {
      SeatsOfNone(seats[1..], busId);
    }
  }

  // ---------------------------------------------------------------------------
  // Row order

  /** A `getSeats` answer with the order inside each deck forgotten. */
  datatype SeatsBag =
    | NotYourBusBag
    | SingleDeckBag(deck: string, seats: multiset<SeatResponse>)
    | TwoDecksBag(upperDeck: multiset<SeatResponse>, lowerDeck: multiset<SeatResponse>)

  function Unordered(v: SeatsView): SeatsBag
  {
    match v
    case NotYourBus => NotYourBusBag
    case SingleDeck(deck, seats) => SingleDeckBag(deck, multiset(seats))
    case TwoDecks(upper, lower) => TwoDecksBag(multiset(upper), multiset(lower))
  }

  /** `findByBus` returns each row of the bus as often as the table holds it, and no other row. */
  lemma {:induction false} SeatsOfMultiplicity(seats: seq<SeatRow>, busId: Uuid)
    ensures forall x :: multiset(SeatsOf(seats, busId))[x] == if x.busId == busId then multiset(seats)[x] else 0
    decreases |seats|
  {
    if seats != [] {
      SeatsOfMultiplicity(seats[1..], busId);
      assert seats == [seats[0]] + seats[1..];
    }
  }

  /** The filter keeps each response with the prefix as often as it occurs, and no other. */
  lemma {:induction false} WithPrefixMultiplicity(rs: seq<SeatResponse>, c: char)
    ensures forall x :: multiset(WithPrefix(rs, c))[x] == if StartsWithChar(x.seatNumber, c) then multiset(rs)[x] else 0
    decreases |rs|
  {
    if rs != [] {
      WithPrefixMultiplicity(rs[1..], c);
      assert rs == [rs[0]] + rs[1..];
    }
  }

  /** `ToResponses` one row at a time, the form the reordering proof below works on. */
  function Responses(seats: seq<SeatRow>): seq<SeatResponse>
  {
    if seats == [] then []
    else [SeatResponse(seats[0].seatNumber, seats[0].seatType, true)] + Responses(seats[1..])
  }

  lemma {:induction false} ResponsesAreToResponses(seats: seq<SeatRow>)
    ensures Responses(seats) == ToResponses(seats)
    decreases |seats|
  {
    if seats != [] {
      ResponsesAreToResponses(seats[1..]);
      var l, r := Responses(seats), ToResponses(seats);
      forall k | 0 <= k < |r| ensures l[k] == r[k] {
        if k > 0 {
          assert l[k] == ToResponses(seats[1..])[k - 1];
        }
      }
    }
  }

  lemma {:induction false} ResponsesAppend(a: seq<SeatRow>, b: seq<SeatRow>)
    ensures Responses(a + b) == Responses(a) + Responses(b)
    decreases |a|
  {
    if a != [] {
      assert (a + b)[1..] == a[1..] + b;
      ResponsesAppend(a[1..], b);
    } else {
      assert a + b == b;
    }
  }

  lemma ResponsesSplitAt(q: seq<SeatRow>, j: int)
    requires 0 <= j < |q|
    ensures Responses(q) == Responses(q[..j]) + [SeatResponse(q[j].seatNumber, q[j].seatType, true)] + Responses(q[j + 1..])
  {
    var a, x, b := q[..j], q[j], q[j + 1..];
    assert Responses([x]) == [SeatResponse(x.seatNumber, x.seatType, true)] by {
      assert [x][1..] == [];
    }
    assert q == (a + [x]) + b;
    ResponsesAppend(a + [x], b);
    ResponsesAppend(a, [x]);
  }

  /** The responses of a table with one row taken out at `j`. */
  lemma ResponsesRemove(q: seq<SeatRow>, j: int)
    requires 0 <= j < |q|
    ensures multiset(Responses(q))
         == multiset(Responses(q[..j] + q[j + 1..])) + multiset{SeatResponse(q[j].seatNumber, q[j].seatType, true)}
  {
    var ra, rb := Responses(q[..j]), Responses(q[j + 1..]);
    var rx := SeatResponse(q[j].seatNumber, q[j].seatType, true);
    ResponsesSplitAt(q, j);
    ResponsesAppend(q[..j], q[j + 1..]);
    assert multiset(ra + [rx] + rb) == multiset(ra) + multiset{rx} + multiset(rb);
    assert multiset(ra + rb) == multiset(ra) + multiset(rb);
  }

  /** Taking the first row out of `p` and the same row out of a reordering of `p` leaves reorderings. */
  lemma RemoveMatchingRow(p: seq<SeatRow>, q: seq<SeatRow>, j: int)
    requires multiset(p) == multiset(q) && p != []
    requires 0 <= j < |q| && q[j] == p[0]
    ensures multiset(p[1..]) == multiset(q[..j] + q[j + 1..])
  {
    var a, b := q[..j], q[j + 1..];
    assert q == a + [q[j]] + b;
    assert multiset(q) == multiset(a) + multiset{q[j]} + multiset(b);
    assert p == [p[0]] + p[1..];
    assert multiset(p) == multiset{p[0]} + multiset(p[1..]);
    assert multiset(a + b) == multiset(a) + multiset(b);
    forall r ensures multiset(p[1..])[r] == multiset(a + b)[r] {
      assert multiset(p)[r] == multiset(q)[r];
    }
  }

  lemma {:induction false} ResponsesPermutation(p: seq<SeatRow>, q: seq<SeatRow>)
    requires multiset(p) == multiset(q)
    ensures multiset(Responses(p)) == multiset(Responses(q))
    decreases |p|
  {
    if p != [] {
      assert p[0] in multiset(q);
      var j :| 0 <= j < |q| && q[j] == p[0];
      var rest := q[..j] + q[j + 1..];
      RemoveMatchingRow(p, q, j);
      ResponsesPermutation(p[1..], rest);
      ResponsesRemove(q, j);
    }
  }

  /** Rows in another order give the same responses in that order. */
  lemma ToResponsesPermutation(p: seq<SeatRow>, q: seq<SeatRow>)
    requires multiset(p) == multiset(q)
    ensures multiset(ToResponses(p)) == multiset(ToResponses(q))
  {
    ResponsesAreToResponses(p);
    ResponsesAreToResponses(q);
    ResponsesPermutation(p, q);
  }

  lemma SeatsOfPermutation(seats: seq<SeatRow>, seats': seq<SeatRow>, busId: Uuid)
    requires multiset(seats) == multiset(seats')
    ensures multiset(SeatsOf(seats, busId)) == multiset(SeatsOf(seats', busId))
  {
    SeatsOfMultiplicity(seats, busId);
    SeatsOfMultiplicity(seats', busId);
  }

  lemma WithPrefixPermutation(a: seq<SeatResponse>, b: seq<SeatResponse>, c: char)
    requires multiset(a) == multiset(b)
    ensures multiset(WithPrefix(a, c)) == multiset(WithPrefix(b, c))
  {
    WithPrefixMultiplicity(a, c);
    WithPrefixMultiplicity(b, c);
  }

  lemma NoUpperBerthOrderFree(f: seq<SeatRow>, g: seq<SeatRow>)
    requires multiset(f) == multiset(g)
    ensures NoUpperBerth(f) ==> NoUpperBerth(g)
  {
    if NoUpperBerth(f) {
      forall k | 0 <= k < |g| ensures !StartsWithChar(g[k].seatNumber, 'U') {
        assert g[k] in multiset(f);
      }
    }
  }

  /** `findByBus` declares no order. Whatever order the table yields its rows in, the caller gets
      the same answer up to the order inside each deck. */
  lemma GetSeatsIgnoresRowOrder(buses: map<Uuid, Bus>, seats: seq<SeatRow>, seats': seq<SeatRow>, busId: Uuid, user: User)
    requires multiset(seats) == multiset(seats')
    ensures GetSeats(buses, seats, busId, user).Err? ==> GetSeats(buses, seats', busId, user) == GetSeats(buses, seats, busId, user)
    ensures GetSeats(buses, seats, busId, user).Ok? ==>
      && GetSeats(buses, seats', busId, user).Ok?
      && Unordered(GetSeats(buses, seats', busId, user).value) == Unordered(GetSeats(buses, seats, busId, user).value)
  {
    if busId in buses && user.operatorId.Some? && buses[busId].operatorId == user.operatorId {
      var f, g := SeatsOf(seats, busId), SeatsOf(seats', busId);
      SeatsOfPermutation(seats, seats', busId);
      NoUpperBerthOrderFree(f, g);
      NoUpperBerthOrderFree(g, f);
      ToResponsesPermutation(f, g);
      WithPrefixPermutation(ToResponses(f), ToResponses(g), 'U');
      WithPrefixPermutation(ToResponses(f), ToResponses(g), 'L');
    }
  }
}
