/** The operator's seat-layout preview page (`BusSeatLayout`): the seats it
    draws for a bus type and a seat count, and the set of seats the operator
    has clicked. A type containing "SLEEPER" gets two decks of berths, three to
    a row, the lower deck first with half the seats rounded down; any other
    type gets seats four to a row, numbered 1, 2, ... */
module SeatLayoutPage {
  import opened Wrappers
  import opened Text

  datatype Deck = Lower | Upper | NoDeck

  /** A JavaScript seat `number`: a string like "L3" on a sleeper, a plain number on a seater. */
  datatype SeatLabel = Named(name: string) | Counted(count: nat)

  datatype UiSeat = UiSeat(id: string, row: nat, col: nat, deck: Deck, number: SeatLabel, kind: string)

  const DefaultBusType := "SEATER"
  const DefaultTotalSeats := 40

  /** `busData.busType || 'SEATER'`: a missing or empty type falls back to "SEATER". */
  function BusTypeOrDefault(busType: Option<string>): (t: string)
    ensures (busType.None? || busType.value == []) ==> t == DefaultBusType
    ensures busType.Some? && busType.value != [] ==> t == busType.value
    ensures t != []
  {
    if busType.None? || busType.value == [] then DefaultBusType else busType.value
  }

  /** `parseInt(busData.totalSeats) || 40`: `parsed` is what `parseInt` returned, `None` for NaN;
      NaN and 0 fall back to 40, any other value (negative ones too) is kept. */
  function TotalSeatsOrDefault(parsed: Option<int>): (n: int)
    ensures n != 0
    ensures (parsed.None? || parsed.value == 0) ==> n == DefaultTotalSeats
    ensures parsed.Some? && parsed.value != 0 ==> n == parsed.value
  {
    if parsed.None? || parsed.value == 0 then DefaultTotalSeats else parsed.value
  }

  function DeckLetter(deck: Deck): string
  {
    match deck
    case Lower => "L"
    case Upper => "U"
    case NoDeck => ""
  }

  /** The berth pushed for `seatCounter` at (`row`, `col`) of a deck. */
  function Berth(deck: Deck, row: nat, col: nat, seatCounter: nat): UiSeat
  {
    UiSeat(DeckLetter(deck) + (NatToString(row) + "-" + NatToString(col)), row, col, deck,
           Named(DeckLetter(deck) + NatToString(seatCounter + 1)), "sleeper")
  }

  /** The berths of one deck holding `count` seats: berth k sits at row k div 3, col k mod 3. */
  function DeckSeats(deck: Deck, count: int): (s: seq<UiSeat>)
    ensures |s| == if count > 0 then count else 0
  {
    var n := if count > 0 then count else 0;
    seq(n, k requires 0 <= k < n => Berth(deck, k / 3, k % 3, k))
  }

  /** The two-deck layout: `Math.floor(n / 2)` lower berths, then the remaining upper ones. */
  function SleeperSeats(total: int): seq<UiSeat>
  {
    DeckSeats(Lower, total / 2) + DeckSeats(Upper, total - total / 2)
  }

  /** `Math.ceil(n / d)`. */
  function CeilDiv(n: int, d: nat): (q: int)
    requires d > 0
    ensures q * d >= n && (q - 1) * d < n
  {
    -((-n) / d)
  }

  /** The seat kind of the one-deck layout; the "semi-sleeper" case is checked only on types that
      do not contain "SLEEPER". */
  function SeaterKind(busType: string): string
  {
    if Contains(busType, "SEMI_SLEEPER") then "semi-sleeper" else "seater"
  }

  function SeaterSeat(busType: string, k: nat): UiSeat
  {
    UiSeat(NatToString(k / 4) + "-" + NatToString(k % 4), k / 4, k % 4, NoDeck, Counted(k + 1), SeaterKind(busType))
  }

  /** The one-deck layout: seat k sits at row k div 4, col k mod 4 and is numbered k + 1. */
  function SeaterSeats(busType: string, total: int): (s: seq<UiSeat>)
    ensures |s| == if total > 0 then total else 0
  {
    var n := if total > 0 then total else 0;
    seq(n, k requires 0 <= k < n => SeaterSeat(busType, k))
  }

  /** What `generateSeats` draws. */
  function Layout(busType: string, total: int): seq<UiSeat>
  {
    if Contains(busType, "SLEEPER") then SleeperSeats(total) else SeaterSeats(busType, total)
  }

  /** `toggleSeat`: an id that is selected is removed (every copy of it); one that is not is appended. */
  function Toggle(selected: seq<string>, id: string): (r: seq<string>)
    ensures id in selected ==> id !in r && forall x :: x in r <==> x in selected && x != id
    ensures id !in selected ==> r == selected + [id]
  {
    if id in selected then Without(selected, id) else selected + [id]
  }

  function Without(s: seq<string>, id: string): (r: seq<string>)
    ensures forall x :: x in r <==> x in s && x != id
    ensures |r| <= |s|
  {
    if s == [] then []
    else (if s[0] == id then [] else [s[0]]) + Without(s[1..], id)
  }

  /** Pushing the berth at (`row`, `c`) extends the deck built so far by its next berth. */
  lemma DeckStep(deck: Deck, target: int, row: nat, c: nat, k: nat)
    requires c < 3 && k == 3 * row + c && k < |DeckSeats(deck, target)|
    ensures DeckSeats(deck, target)[..k + 1] == DeckSeats(deck, target)[..k] + [Berth(deck, row, c, k)]
  {
    assert k / 3 == row && k % 3 == c;
    assert DeckSeats(deck, target)[k] == Berth(deck, row, c, k);
  }

  /** Pushing the seat at (`row`, `c`) extends the one-deck layout built so far by its next seat. */
  lemma SeaterStep(busType: string, total: int, row: nat, c: nat, k: nat)
    requires c < 4 && k == 4 * row + c && k < |SeaterSeats(busType, total)|
    ensures SeaterSeats(busType, total)[..k + 1] == SeaterSeats(busType, total)[..k] + [SeaterSeat(busType, k)]
  {
    assert SeaterSeats(busType, total)[k] == SeaterSeat(busType, k);
  }

  class LayoutPage {
    /** The `seats` state. */
    var seats: seq<UiSeat>
    /** The `selectedSeats` state: ids of the clicked seats. */
    var selectedSeats: seq<string>

    constructor ()
      ensures seats == [] && selectedSeats == []
    {
      seats := [];
      selectedSeats := [];
    }

    /** `generateSeats`: replaces the drawn seats; the selection is kept. */
    method GenerateSeats(busType: string, total: int)
      modifies this
      ensures seats == Layout(busType, total)
      ensures selectedSeats == old(selectedSeats)
    {
      if Contains(busType, "SLEEPER") {
        var lowerDeckSeats := total / 2;
        var upperDeckSeats := total - lowerDeckSeats;
        var lower := FillDeck(Lower, lowerDeckSeats);
        var upper := FillDeck(Upper, upperDeckSeats);
        seats := lower + upper;
      } else {
        seats := FillSeater(busType, total);
      }
    }

    /** `toggleSeat`. */
    method ToggleSeat(seatId: string)
      modifies this
      ensures selectedSeats == Toggle(old(selectedSeats), seatId)
      ensures seats == old(seats)
    {
      selectedSeats := Toggle(selectedSeats, seatId);
    }
  }

  /** One deck's `while (seatCounter < target)` loop: a left berth, then up to two right berths, per row. */
  method FillDeck(deck: Deck, target: int) returns (generated: seq<UiSeat>)
    ensures generated == DeckSeats(deck, target)
  {
    ghost var n := if target > 0 then target else 0;
    generated := [];
    var row := 0;
    var seatCounter := 0;
    while seatCounter < target
      invariant 0 <= seatCounter <= n
      invariant seatCounter < n ==> seatCounter == 3 * row
      invariant generated == DeckSeats(deck, target)[..seatCounter]
      decreases n - seatCounter
    {
      DeckStep(deck, target, row, 0, seatCounter);
      generated := generated + [Berth(deck, row, 0, seatCounter)];
      seatCounter := seatCounter + 1;
      if seatCounter < target {
        DeckStep(deck, target, row, 1, seatCounter);
        generated := generated + [Berth(deck, row, 1, seatCounter)];
        seatCounter := seatCounter + 1;
      }
      if seatCounter < target {
        DeckStep(deck, target, row, 2, seatCounter);
        generated := generated + [Berth(deck, row, 2, seatCounter)];
        seatCounter := seatCounter + 1;
      }
      row := row + 1;
    }
    assert generated == DeckSeats(deck, target)[..n];
  }

  /** The seater branch: `ceil(n / 4)` rows of up to four seats, stopping at n seats. */
  method FillSeater(busType: string, total: int) returns (generated: seq<UiSeat>)
    ensures generated == SeaterSeats(busType, total)
  {
    ghost var n := if total > 0 then total else 0;
    var seatsPerRow := 4;
    var rows := CeilDiv(total, seatsPerRow);
    generated := [];
    var i := 0;
    while i < rows && |generated| < total
      invariant 0 <= i && |generated| <= n
      invariant |generated| < n ==> |generated| == 4 * i
      invariant generated == SeaterSeats(busType, total)[..|generated|]
      decreases n - |generated|
    {
      var j := 0;
      while j < seatsPerRow && |generated| < total
        invariant 0 <= j <= 4 && |generated| <= n
        invariant |generated| == 4 * i + j
        invariant generated == SeaterSeats(busType, total)[..|generated|]
      {
        SeaterStep(busType, total, i, j, |generated|);
        generated := generated + [SeaterSeat(busType, |generated|)];
        j := j + 1;
      }
      i := i + 1;
    }
    assert generated == SeaterSeats(busType, total)[..n];
  }

  // ---------------------------------------------------------------------------
  // Properties of the layout

  /** A type containing "SLEEPER" gets two decks, lower first, holding floor(n/2) and n - floor(n/2)
      berths: n in all for n >= 0, none for n < 0. Any other type gets max(n, 0) seats. */
  lemma LayoutCounts(busType: string, total: int)
    ensures Contains(busType, "SLEEPER") ==>
      Layout(busType, total) == DeckSeats(Lower, total / 2) + DeckSeats(Upper, total - total / 2)
    ensures total >= 0 ==> |Layout(busType, total)| == total
    ensures total < 0 ==> Layout(busType, total) == []
  {
    if Contains(busType, "SLEEPER") && total < 0 {
      assert total - total / 2 <= 0;
    }
  }

  /** The k-th berth of a deck is numbered with the deck's letter and k + 1. */
  lemma DeckNumbering(deck: Deck, count: int, k: int)
    requires 0 <= k < |DeckSeats(deck, count)|
    ensures var s := DeckSeats(deck, count)[k];
      && s.number == Named(DeckLetter(deck) + NatToString(k + 1))
      && s.row == k / 3 && s.col == k % 3 && s.deck == deck && s.kind == "sleeper"
  {
  }

  /** "SEMI_SLEEPER" contains "SLEEPER", so a semi-sleeper bus gets the two-deck layout and no seat
      of the one-deck layout is ever a semi-sleeper. */
  lemma SemiSleeperUnreachable(busType: string, total: int)
    ensures Contains(busType, "SEMI_SLEEPER") ==> Contains(busType, "SLEEPER")
    ensures !Contains(busType, "SLEEPER") ==> forall s :: s in Layout(busType, total) ==> s.kind == "seater"
    ensures Layout("SEMI_SLEEPER", total) == SleeperSeats(total)
  {
    if Contains(busType, "SEMI_SLEEPER") {
      var i :| 0 <= i <= |busType| - 12 && OccursAt(busType, "SEMI_SLEEPER", i);
      assert busType[i + 5..i + 12] == "SEMI_SLEEPER"[5..];
      assert OccursAt(busType, "SLEEPER", i + 5);
    }
    var semi := "SEMI_SLEEPER";
    assert semi[5..12] == "SLEEPER";
    assert OccursAt(semi, "SLEEPER", 5);
  }

  /** Seat ids are distinct within a layout, so a click selects exactly one seat. */
  lemma IdsDistinct(busType: string, total: int, a: int, b: int)
    requires 0 <= a < b < |Layout(busType, total)|
    ensures Layout(busType, total)[a].id != Layout(busType, total)[b].id
  {
    if Contains(busType, "SLEEPER") {
      SleeperIdsDistinct(total, a, b);
    } else {
      SeaterIdsDistinct(busType, total, a, b);
    }
  }

  lemma SleeperIdsDistinct(total: int, a: int, b: int)
    requires 0 <= a < b < |SleeperSeats(total)|
    ensures SleeperSeats(total)[a].id != SleeperSeats(total)[b].id
  {
    var l := SleeperSeats(total);
    var lower := DeckSeats(Lower, total / 2);
    var upper := DeckSeats(Upper, total - total / 2);
    if a < |lower| && b < |lower| {
      assert l[a] == lower[a] && l[b] == lower[b];
      BerthIdsDistinct(Lower, a, Lower, b);
    } else if a < |lower| {
      assert l[a] == lower[a] && l[b] == upper[b - |lower|];
      BerthIdsDistinct(Lower, a, Upper, b - |lower|);
    } else {
      assert l[a] == upper[a - |lower|] && l[b] == upper[b - |lower|];
      BerthIdsDistinct(Upper, a - |lower|, Upper, b - |lower|);
    }
  }

  lemma SeaterIdsDistinct(busType: string, total: int, a: int, b: int)
    requires 0 <= a < b < |SeaterSeats(busType, total)|
    ensures SeaterSeats(busType, total)[a].id != SeaterSeats(busType, total)[b].id
  {
    var l := SeaterSeats(busType, total);
    assert l[a] == SeaterSeat(busType, a) && l[b] == SeaterSeat(busType, b);
    if l[a].id == l[b].id {
      SplitAtSeparator(NatToString(a / 4), NatToString(a % 4), NatToString(b / 4), NatToString(b % 4), '-');
      NatToStringInjective(a / 4, b / 4);
      NatToStringInjective(a % 4, b % 4);
    }
  }

  /** The deck letter heads an id in one way only. */
  lemma DeckLetterPrefix(d1: Deck, t1: string, d2: Deck, t2: string)
    requires d1 != NoDeck && d2 != NoDeck
    requires DeckLetter(d1) + t1 == DeckLetter(d2) + t2
    ensures d1 == d2 && t1 == t2
  {
    var s := DeckLetter(d1) + t1;
    assert |DeckLetter(d1)| == 1 == |DeckLetter(d2)|;
    assert s[0] == DeckLetter(d1)[0] == DeckLetter(d2)[0];
    assert t1 == s[1..] == t2;
  }

  /** A berth id reads back as its deck, row and column. */
  lemma BerthIdDetermines(d1: Deck, r1: nat, c1: nat, d2: Deck, r2: nat, c2: nat)
    requires d1 != NoDeck && d2 != NoDeck
    requires Berth(d1, r1, c1, 0).id == Berth(d2, r2, c2, 0).id
    ensures d1 == d2 && r1 == r2 && c1 == c2
  {
    var a1, b1 := NatToString(r1), NatToString(c1);
    var a2, b2 := NatToString(r2), NatToString(c2);
    DeckLetterPrefix(d1, a1 + "-" + b1, d2, a2 + "-" + b2);
    SplitAtSeparator(a1, b1, a2, b2, '-');
    NatToStringInjective(r1, r2);
    NatToStringInjective(c1, c2);
  }

  lemma BerthIdsDistinct(d1: Deck, k1: nat, d2: Deck, k2: nat)
    requires d1 != NoDeck && d2 != NoDeck
    requires (d1, k1) != (d2, k2)
    ensures Berth(d1, k1 / 3, k1 % 3, k1).id != Berth(d2, k2 / 3, k2 % 3, k2).id
  {
    if Berth(d1, k1 / 3, k1 % 3, k1).id == Berth(d2, k2 / 3, k2 % 3, k2).id {
      BerthIdDetermines(d1, k1 / 3, k1 % 3, d2, k2 / 3, k2 % 3);
    }
  }

  // ---------------------------------------------------------------------------
  // Properties of the selection

  predicate NoDuplicates(s: seq<string>)
  {
    forall i, j :: 0 <= i < j < |s| ==> s[i] != s[j]
  }

  /** Toggling keeps a selection free of duplicates and flips exactly the clicked id. */
  lemma ToggleFlipsOneId(selected: seq<string>, id: string)
    requires NoDuplicates(selected)
    ensures NoDuplicates(Toggle(selected, id))
    ensures id in Toggle(selected, id) <==> id !in selected
    ensures forall x :: x != id ==> (x in Toggle(selected, id) <==> x in selected)
  {
    if id in selected {
      WithoutKeepsNoDuplicates(selected, id);
    }
  }

  lemma {:induction false} WithoutKeepsNoDuplicates(s: seq<string>, id: string)
    requires NoDuplicates(s)
    ensures NoDuplicates(Without(s, id))
    decreases |s|
  {
    if s != [] {
      WithoutKeepsNoDuplicates(s[1..], id);
      assert s[0] !in s[1..];
      assert s[0] !in Without(s[1..], id);
    }
  }

  lemma {:induction false} WithoutAbsent(s: seq<string>, id: string)
    requires id !in s
    ensures Without(s, id) == s
    decreases |s|
  {
    if s != [] {
      WithoutAbsent(s[1..], id);
    }
  }

  /** Toggling twice restores the selected set; when the id was not selected it restores the list
      itself, and when it was, the id comes back at the end. */
  lemma ToggleTwice(selected: seq<string>, id: string)
    ensures forall x :: x in Toggle(Toggle(selected, id), id) <==> x in selected
    ensures id !in selected ==> Toggle(Toggle(selected, id), id) == selected
    ensures id in selected ==> Toggle(Toggle(selected, id), id) == Without(selected, id) + [id]
  {
    if id !in selected {
      WithoutAppended(selected, id);
    }
  }

  lemma {:induction false} WithoutAppended(s: seq<string>, id: string)
    requires id !in s
    ensures Without(s + [id], id) == s
    decreases |s|
  {
    if s == [] {
      assert Without([id], id) == [] + Without([], id);
    } else {
      assert (s + [id])[1..] == s[1..] + [id];
      WithoutAppended(s[1..], id);
    }
  }
}
