/** The itinerary page of a trip: the trip's days, a grid of five slots per
    day holding planned events, a list of suggestions (events without a date),
    and drag and drop between the two. Dates are day numbers; the calls to
    the server do not change the local state and are left out. */
module Itinerary {
  import opened Common

  /** A trip's first and last day. */
  datatype Trip = Trip(startDate: int, endDate: int)

  /** An event as the events endpoint returns it; `date` is None for null. */
  datatype Event = Event(eventId: nat, name: string, date: Option<int>)

  /** The card shown for an event, in a slot or among the suggestions. */
  datatype Card = Card(suggestionId: nat, text: string)

  /** One element of the slot array: `null`, a hole the array grew over
      (`undefined`), or a card. */
  datatype Slot = Null | Hole | Holds(card: Card)

  /** Where a drag started. */
  datatype Source = FromSuggestions | FromCalendar

  /** The page state the handlers change. */
  datatype Planner = Planner(suggestions: seq<Card>, slots: seq<Slot>,
                             dragged: Option<Card>, source: Option<Source>)

  function CardFor(e: Event): Card
  {
    Card(e.eventId, e.name)
  }

  // ---------------------------------------------------------------------------
  // The trip's days and the empty grid.
  // ---------------------------------------------------------------------------

  /** `getAllTripDates`: every day from the first to the last, one after the
      other; none when the trip ends before it starts. */
  method TripDates(trip: Trip) returns (dates: seq<int>)
    ensures |dates| == if trip.startDate <= trip.endDate then trip.endDate - trip.startDate + 1 else 0
    ensures forall k :: 0 <= k < |dates| ==> dates[k] == trip.startDate + k
  {
    dates := [];
    var current := trip.startDate;
    while current <= trip.endDate
      invariant current == trip.startDate + |dates|
      invariant trip.startDate <= trip.endDate ==> current <= trip.endDate + 1
      invariant trip.startDate > trip.endDate ==> dates == []
      invariant forall k :: 0 <= k < |dates| ==> dates[k] == trip.startDate + k
      decreases trip.endDate - current
    {
      dates := dates + [current];
      current := current + 1;
    }
  }

  /** `dates.indexOf(d)`: the first position of `d`, or -1. */
  function IndexOf(dates: seq<int>, d: int): (r: int)
    ensures r == -1 <==> d !in dates
    ensures r != -1 ==> 0 <= r < |dates| && dates[r] == d && d !in dates[..r]
  {
    if dates == [] then -1
    else if dates[0] == d then 0
    else
      var r := IndexOf(dates[1..], d);
      assert r != -1 ==> dates[..r + 1] == [dates[0]] + dates[1..][..r];
      if r == -1 then -1 else r + 1
  }

  /** In the trip's days a day's position is its distance from the first day. */
  lemma IndexOfDay(dates: seq<int>, start: int, d: int)
    requires forall k :: 0 <= k < |dates| ==> dates[k] == start + k
    ensures IndexOf(dates, d) == if start <= d < start + |dates| then d - start else -1
  {
    if start <= d < start + |dates| {
      assert dates[d - start] == d;
      var r := IndexOf(dates, d);
      assert dates[r] == start + r;
    } else {
      assert forall k :: 0 <= k < |dates| ==> dates[k] != d;
    }
  }

  /** `Array(days * 5).fill(null)` */
  function EmptyGrid(days: nat): (slots: seq<Slot>)
    ensures |slots| == 5 * days
    ensures forall k :: 0 <= k < |slots| ==> slots[k] == Null
  {
    seq(5 * days, k => Null)
  }

  /** The effect run once the trip is loaded: its days and an empty grid of
      five slots per day. */
  method Initialise(trip: Trip) returns (dates: seq<int>, slots: seq<Slot>)
    ensures |dates| == if trip.startDate <= trip.endDate then trip.endDate - trip.startDate + 1 else 0
    ensures forall k :: 0 <= k < |dates| ==> dates[k] == trip.startDate + k
    ensures slots == EmptyGrid(|dates|)
  {
    dates := TripDates(trip);
    slots := EmptyGrid(|dates|);
  }

  // ---------------------------------------------------------------------------
  // Reading and writing slots.
  // ---------------------------------------------------------------------------

  /** `slots[i]`: a position outside the array reads `undefined`. */
  function At(slots: seq<Slot>, i: int): Slot
  {
    if 0 <= i < |slots| then slots[i] else Hole
  }

  /** `slots[i] = v` on a fresh copy: past the end the array grows and the
      positions skipped become holes; a negative position is a property the
      next copy of the array does not keep. */
  function Write(slots: seq<Slot>, i: int, v: Slot): (r: seq<Slot>)
    ensures i < 0 ==> r == slots
    ensures 0 <= i ==> |r| == if i < |slots| then |slots| else i + 1
    ensures 0 <= i ==> forall k :: 0 <= k < |r| ==> r[k] == if k == i then v else At(slots, k)
  {
    if i < 0 then slots
    else if i < |slots| then slots[i := v]
    else slots + seq(i - |slots|, k => Hole) + [v]
  }

  /** The first position at or after `start` that holds no card. */
  function FirstFree(slots: seq<Slot>, start: nat): (i: nat)
    ensures start <= i && !At(slots, i).Holds?
    ensures forall k :: start <= k < i ==> At(slots, k).Holds?
    decreases |slots| - start
  {
    if start < |slots| && slots[start].Holds? then FirstFree(slots, start + 1) else start
  }

  /** Where an event for the position `start` goes: the first free slot from
      there on, or nowhere when `start` is negative (a date not in the trip). */
  function Placed(slots: seq<Slot>, start: int, card: Card): seq<Slot>
  {
    if start < 0 then slots else Write(slots, FirstFree(slots, start), Holds(card))
  }

  /** The `setCalendarSlots` updater for a dated event: scans forward from its
      day's first slot while the slot holds a card, then writes the card. */
  method PlaceDated(slots: seq<Slot>, dates: seq<int>, date: int, card: Card) returns (newSlots: seq<Slot>)
    ensures newSlots == Placed(slots, IndexOf(dates, date) * 5, card)
  {
    newSlots := slots;
    var start := IndexOf(dates, date) * 5;
    var idx := start;
    while At(newSlots, idx).Holds?
      invariant start <= idx && (start < 0 ==> idx == start)
      invariant start >= 0 ==> FirstFree(slots, start) == FirstFree(slots, idx)
      decreases |newSlots| - idx
    {
      idx := idx + 1;
    }
    newSlots := Write(newSlots, idx, Holds(card));
  }

  /** A dated event lands in the first free slot from its day's first slot;
      every other slot keeps what it held. */
  lemma PlacedWritesFirstFree(slots: seq<Slot>, start: nat, card: Card, k: nat)
    requires k < |Placed(slots, start, card)|
    ensures Placed(slots, start, card)[k]
            == if k == FirstFree(slots, start) then Holds(card) else At(slots, k)
  {
  }

  /** In a fresh grid an event goes into the first slot of its own day. */
  lemma PlacedInEmptyGrid(dates: seq<int>, start: int, d: int, card: Card)
    requires forall k :: 0 <= k < |dates| ==> dates[k] == start + k
    requires start <= d < start + |dates|
    ensures Placed(EmptyGrid(|dates|), IndexOf(dates, d) * 5, card)
            == EmptyGrid(|dates|)[5 * (d - start) := Holds(card)]
  {
    IndexOfDay(dates, start, d);
  }

  /** No bound keeps an event inside its day: when the day's five slots hold
      cards, the event goes into the next day's first slot. */
  lemma PlacedSpillsOver(slots: seq<Slot>, day: nat, card: Card)
    requires 5 * day + 5 < |slots|
    requires forall k :: 5 * day <= k < 5 * day + 5 ==> slots[k].Holds?
    requires slots[5 * day + 5] == Null
    ensures Placed(slots, 5 * day, card) == slots[5 * day + 5 := Holds(card)]
  {
    FirstFreeSkips(slots, 5 * day, 5);
  }

  /** The search passes over a run of slots that hold cards. */
  lemma {:induction false} FirstFreeSkips(slots: seq<Slot>, start: nat, n: nat)
    requires start + n <= |slots|
    requires forall k :: start <= k < start + n ==> slots[k].Holds?
    ensures FirstFree(slots, start) == FirstFree(slots, start + n)
    decreases n
  {
    if n > 0 {
      FirstFreeSkips(slots, start + 1, n - 1);
    }
  }

  /** An event whose date is not one of the trip's days goes nowhere. */
  lemma PlacedOutsideTrip(slots: seq<Slot>, dates: seq<int>, d: int, card: Card)
    requires d !in dates
    ensures Placed(slots, IndexOf(dates, d) * 5, card) == slots
  {
  }

  // ---------------------------------------------------------------------------
  // Placing the loaded events.
  // ---------------------------------------------------------------------------

  /** `suggestions.find(s => s && s.suggestion_id === id)` succeeds. */
  predicate Listed(cards: seq<Card>, id: nat)
  {
    exists k :: 0 <= k < |cards| && cards[k].suggestionId == id
  }

  /** `calendarSlots.find(c => c && c.suggestion_id === id)` succeeds. */
  predicate Planned(slots: seq<Slot>, id: nat)
  {
    exists k :: 0 <= k < |slots| && slots[k].Holds? && slots[k].card.suggestionId == id
  }

  /** What the effect does for the events in turn. The check for an event
      already shown looks at the suggestions and slots of the render the effect
      belongs to, `suggestions0` and `slots0`, not at what earlier events of
      the same run added. */
  function Placement(events: seq<Event>, dates: seq<int>, suggestions0: seq<Card>, slots0: seq<Slot>)
    : (seq<Card>, seq<Slot>)
  {
    if events == [] then (suggestions0, slots0)
    else
      var (suggestions, slots) := Placement(Front(events), dates, suggestions0, slots0);
      var e := Last(events);
      if Listed(suggestions0, e.eventId) || Planned(slots0, e.eventId) then (suggestions, slots)
      else if e.date.None? then (suggestions + [CardFor(e)], slots)
      else (suggestions, Placed(slots, IndexOf(dates, e.date.value) * 5, CardFor(e)))
  }

  /** The effect's `events.map`. */
  method PlaceEvents(events: seq<Event>, dates: seq<int>, suggestions0: seq<Card>, slots0: seq<Slot>)
    returns (suggestions: seq<Card>, slots: seq<Slot>)
    ensures (suggestions, slots) == Placement(events, dates, suggestions0, slots0)
  {
    suggestions, slots := suggestions0, slots0;
    for k := 0 to |events|
      invariant (suggestions, slots) == Placement(events[..k], dates, suggestions0, slots0)
    {
      assert events[..k + 1][..k] == events[..k];
      var e := events[k];
      if !(Listed(suggestions0, e.eventId) || Planned(slots0, e.eventId)) {
        var card := CardFor(e);
        if e.date.None? {
          suggestions := suggestions + [card];
        } else {
          slots := PlaceDated(slots, dates, e.date.value, card);
        }
      }
    }
    assert events[..|events|] == events;
  }

  /** The suggestions the effect adds: the undated events not already shown,
      in order. */
  function NewSuggestions(events: seq<Event>, suggestions0: seq<Card>, slots0: seq<Slot>): seq<Card>
  {
    if events == [] then []
    else
      var e := Last(events);
      NewSuggestions(Front(events), suggestions0, slots0)
      + if e.date.None? && !Listed(suggestions0, e.eventId) && !Planned(slots0, e.eventId)
        then [CardFor(e)] else []
  }

  /** The suggestions end with exactly the new undated events. */
  lemma {:induction false} PlacementSuggestions(events: seq<Event>, dates: seq<int>,
                                                suggestions0: seq<Card>, slots0: seq<Slot>)
    ensures Placement(events, dates, suggestions0, slots0).0
            == suggestions0 + NewSuggestions(events, suggestions0, slots0)
  {
    if events != [] {
      PlacementSuggestions(Front(events), dates, suggestions0, slots0);
    }
  }

  /** Placing never overwrites a card: every slot that held one still does. */
  lemma {:induction false} PlacementKeepsCards(events: seq<Event>, dates: seq<int>,
                                               suggestions0: seq<Card>, slots0: seq<Slot>, k: nat)
    requires k < |slots0| && slots0[k].Holds?
    ensures k < |Placement(events, dates, suggestions0, slots0).1|
    ensures Placement(events, dates, suggestions0, slots0).1[k] == slots0[k]
  {
    if events != [] {
      PlacementKeepsCards(Front(events), dates, suggestions0, slots0, k);
    }
  }

  /** Events already shown, dated or not, change nothing: neither the
      suggestions nor the grid. */
  lemma {:induction false} PlacementSkipsShown(events: seq<Event>, dates: seq<int>,
                                               suggestions0: seq<Card>, slots0: seq<Slot>)
    requires forall e :: e in events ==> Listed(suggestions0, e.eventId) || Planned(slots0, e.eventId)
    ensures Placement(events, dates, suggestions0, slots0) == (suggestions0, slots0)
  {
    if events != [] {
      assert forall e :: e in Front(events) ==> e in events;
      PlacementSkipsShown(Front(events), dates, suggestions0, slots0);
    }
  }

  /** Two events with the same id in one run are both added: the check does
      not see what the run itself added. */
  lemma DuplicatesInOneRun(e: Event, dates: seq<int>)
    requires e.date.None?
    ensures Placement([e, e], dates, [], []).0 == [CardFor(e), CardFor(e)]
  {
    assert Front([e, e]) == [e];
    assert Front([e]) == [];
    assert !Listed([], e.eventId) && !Planned([], e.eventId);
    assert Placement([e], dates, [], []).0 == [CardFor(e)];
  }

  // ---------------------------------------------------------------------------
  // Counting the cards on the page.
  // ---------------------------------------------------------------------------

  /** 1 when the slot holds `c`. */
  function HoldsCard(v: Slot, c: Card): nat
  {
    if v == Holds(c) then 1 else 0
  }

  /** How many slots hold `c`. */
  function HeldCount(slots: seq<Slot>, c: Card): nat
  {
    if slots == [] then 0 else HoldsCard(slots[0], c) + HeldCount(slots[1..], c)
  }

  /** How often `c` is shown on the page: among the suggestions and in the
      slots. */
  function Shown(p: Planner, c: Card): nat
  {
    multiset(p.suggestions)[c] + HeldCount(p.slots, c)
  }

  /** Overwriting one slot exchanges its card for the new one. */
  lemma {:induction false} HeldUpdate(slots: seq<Slot>, i: nat, v: Slot, c: Card)
    requires i < |slots|
    ensures HeldCount(slots[i := v], c) + HoldsCard(slots[i], c) == HeldCount(slots, c) + HoldsCard(v, c)
  {
    var r := slots[i := v];
    if i > 0 {
      HeldUpdate(slots[1..], i - 1, v, c);
      assert r[1..] == slots[1..][i - 1 := v];
    } else {
      assert r[1..] == slots[1..];
    }
  }

  /** `slots.findIndex(s => s && s.suggestion_id === id)` */
  function FindIndex(slots: seq<Slot>, id: nat): (r: int)
    ensures r == -1 || (0 <= r < |slots| && slots[r].Holds? && slots[r].card.suggestionId == id)
    ensures r == -1 <==> !Planned(slots, id)
    ensures r != -1 ==> forall k :: 0 <= k < r ==> !(slots[k].Holds? && slots[k].card.suggestionId == id)
  {
    if slots == [] then -1
    else if slots[0].Holds? && slots[0].card.suggestionId == id then 0
    else
      var r := FindIndex(slots[1..], id);
      assert forall k :: 0 < k < |slots| ==> slots[k] == slots[1..][k - 1];
      if r == -1 then -1 else r + 1
  }

  /** `slots[slots.findIndex(...)] = null` on a copy: the first slot holding
      the id becomes `null` and no other slot changes. */
  function ClearCard(slots: seq<Slot>, id: nat): (r: seq<Slot>)
    ensures |r| == |slots|
    ensures forall k :: 0 <= k < |slots| ==> r[k] == if k == FindIndex(slots, id) then Null else slots[k]
  {
    var k := FindIndex(slots, id);
    if k < 0 then slots else slots[k := Null]
  }

  /** `cards.filter(s => s.suggestion_id !== id)`: the other cards keep their
      order and their multiplicity. */
  function Without(cards: seq<Card>, id: nat): (r: seq<Card>)
    ensures forall c :: c in r <==> c in cards && c.suggestionId != id
    ensures forall c :: multiset(r)[c] == if c.suggestionId != id then multiset(cards)[c] else 0
  {
    if cards == [] then []
    else
      assert cards == [cards[0]] + cards[1..];
      (if cards[0].suggestionId == id then [] else [cards[0]]) + Without(cards[1..], id)
  }

  /** Filtering out the only suggestion with its id takes exactly that card. */
  lemma {:induction false} WithoutOnly(cards: seq<Card>, d: Card)
    requires d in cards
    requires forall k :: 0 <= k < |cards| && cards[k].suggestionId == d.suggestionId ==> cards[k] == d
    requires multiset(cards)[d] == 1
    ensures multiset(Without(cards, d.suggestionId)) + multiset{d} == multiset(cards)
  {
    assert cards == [cards[0]] + cards[1..];
    if cards[0] == d {
      assert d !in cards[1..];
      WithoutNone(cards[1..], d.suggestionId);
    } else {
      WithoutOnly(cards[1..], d);
    }
  }

  lemma {:induction false} WithoutNone(cards: seq<Card>, id: nat)
    requires forall k :: 0 <= k < |cards| ==> cards[k].suggestionId != id
    ensures Without(cards, id) == cards
  {
    if cards != [] {
      WithoutNone(cards[1..], id);
    }
  }

  // ---------------------------------------------------------------------------
  // Drag and drop.
  // ---------------------------------------------------------------------------

  /** `handleDropToSlot(date, slotIdx)`: nothing happens unless a card is
      dragged and the slot is `null`; a suggestion moves into the slot, a card
      from the calendar leaves its first slot for the target. */
  function DropToSlot(p: Planner, slotIdx: int): (r: Planner)
    ensures p.dragged.None? || At(p.slots, slotIdx) != Null ==> r == p
    ensures p.dragged.Some? && At(p.slots, slotIdx) == Null ==>
      && r.dragged.None? && r.source.None? && |r.slots| == |p.slots|
      && r.slots[slotIdx] == (if p.source.Some? then Holds(p.dragged.value) else Null)
    ensures p.dragged.Some? && At(p.slots, slotIdx) == Null && p.source == Some(FromSuggestions) ==>
      && r.suggestions == Without(p.suggestions, p.dragged.value.suggestionId)
      && r.slots == p.slots[slotIdx := Holds(p.dragged.value)]
    ensures p.dragged.Some? && At(p.slots, slotIdx) == Null && p.source == Some(FromCalendar) ==>
      && r.suggestions == p.suggestions
      && r.slots == ClearCard(p.slots, p.dragged.value.suggestionId)[slotIdx := Holds(p.dragged.value)]
    ensures p.dragged.Some? && At(p.slots, slotIdx) == Null && p.source.None? ==>
      r.suggestions == p.suggestions && r.slots == p.slots
  {
    if p.dragged.None? || At(p.slots, slotIdx) != Null then p
    else
      var d := p.dragged.value;
      match p.source
      case Some(FromSuggestions) =>
        Planner(Without(p.suggestions, d.suggestionId), p.slots[slotIdx := Holds(d)], None, None)
      case Some(FromCalendar) =>
        Planner(p.suggestions, ClearCard(p.slots, d.suggestionId)[slotIdx := Holds(d)], None, None)
      case None =>
        Planner(p.suggestions, p.slots, None, None)
  }

  /** Dropping a suggestion on a free slot keeps the cards on the page, when it
      was the only suggestion with its id. */
  lemma DropSuggestionKeepsCards(p: Planner, slotIdx: int, c: Card)
    requires p.dragged.Some? && p.source == Some(FromSuggestions) && At(p.slots, slotIdx) == Null
    requires p.dragged.value in p.suggestions && multiset(p.suggestions)[p.dragged.value] == 1
    requires forall k :: 0 <= k < |p.suggestions| && p.suggestions[k].suggestionId == p.dragged.value.suggestionId
               ==> p.suggestions[k] == p.dragged.value
    ensures Shown(DropToSlot(p, slotIdx), c) == Shown(p, c)
  {
    var d := p.dragged.value;
    WithoutOnly(p.suggestions, d);
    assert multiset(Without(p.suggestions, d.suggestionId))[c] + multiset{d}[c] == multiset(p.suggestions)[c];
    HeldUpdate(p.slots, slotIdx, Holds(d), c);
  }

  /** Moving a card from its slot to a free slot keeps the cards on the page,
      when the card is the first one in the slots with its id. */
  lemma DropFromCalendarKeepsCards(p: Planner, slotIdx: int, c: Card)
    requires p.dragged.Some? && p.source == Some(FromCalendar) && At(p.slots, slotIdx) == Null
    requires Planned(p.slots, p.dragged.value.suggestionId)
    requires p.slots[FindIndex(p.slots, p.dragged.value.suggestionId)] == Holds(p.dragged.value)
    ensures Shown(DropToSlot(p, slotIdx), c) == Shown(p, c)
  {
    var d := p.dragged.value;
    var k := FindIndex(p.slots, d.suggestionId);
    HeldUpdate(p.slots, k, Null, c);
    var cleared := p.slots[k := Null];
    HeldUpdate(cleared, slotIdx, Holds(d), c);
  }

  /** `handleDropToSuggestionArea`: a card from the calendar leaves its slot
      and joins the end of the suggestions; a suggestion stays where it is. */
  function DropToSuggestions(p: Planner): (r: Planner)
    ensures p.dragged.None? ==> r == p
    ensures p.dragged.Some? ==> r.dragged.None? && r.source.None?
    ensures p.dragged.Some? && p.source == Some(FromCalendar) ==>
      && r.suggestions == p.suggestions + [p.dragged.value]
      && r.slots == ClearCard(p.slots, p.dragged.value.suggestionId)
    ensures p.dragged.Some? && p.source != Some(FromCalendar) ==>
      r.suggestions == p.suggestions && r.slots == p.slots
  {
    if p.dragged.None? then p
    else if p.source == Some(FromCalendar) then
      var d := p.dragged.value;
      Planner(p.suggestions + [d], ClearCard(p.slots, d.suggestionId), None, None)
    else Planner(p.suggestions, p.slots, None, None)
  }

  /** Moving a card from the calendar to the suggestions keeps the cards on the
      page, when the card is the first one in the slots with its id. */
  lemma DropToSuggestionsKeepsCards(p: Planner, c: Card)
    requires p.dragged.Some? && p.source == Some(FromCalendar)
    requires Planned(p.slots, p.dragged.value.suggestionId)
    requires p.slots[FindIndex(p.slots, p.dragged.value.suggestionId)] == Holds(p.dragged.value)
    ensures Shown(DropToSuggestions(p), c) == Shown(p, c)
  {
    var d := p.dragged.value;
    HeldUpdate(p.slots, FindIndex(p.slots, d.suggestionId), Null, c);
  }

  // ---------------------------------------------------------------------------
  // Deleting.
  // ---------------------------------------------------------------------------

  /** `deleteSuggestion(id)`: drops every suggestion with that id and keeps
      the others in order. */
  function DeleteSuggestion(p: Planner, id: nat): (r: Planner)
    ensures r.slots == p.slots && r.dragged == p.dragged && r.source == p.source
    ensures forall c :: c in r.suggestions <==> c in p.suggestions && c.suggestionId != id
    ensures r.suggestions == Without(p.suggestions, id)
  {
    p.(suggestions := Without(p.suggestions, id))
  }

  /** `deleteFromCalendar(idx)`: an empty slot stays as it is; otherwise only
      that slot becomes `null`. */
  function DeleteFromCalendar(p: Planner, idx: int): (r: Planner)
    ensures !At(p.slots, idx).Holds? ==> r == p
    ensures At(p.slots, idx).Holds? ==>
      && r.suggestions == p.suggestions && r.dragged == p.dragged && r.source == p.source
      && |r.slots| == |p.slots|
      && forall k :: 0 <= k < |r.slots| ==> r.slots[k] == if k == idx then Null else p.slots[k]
  {
    if !At(p.slots, idx).Holds? then p else p.(slots := p.slots[idx := Null])
  }

  /** Deleting from the calendar takes exactly the card in that slot off the
      page. */
  lemma DeleteFromCalendarRemoves(p: Planner, idx: int, c: Card)
    requires At(p.slots, idx).Holds?
    ensures Shown(DeleteFromCalendar(p, idx), c) + (if c == p.slots[idx].card then 1 else 0) == Shown(p, c)
  {
    HeldUpdate(p.slots, idx, Null, c);
  }
}
