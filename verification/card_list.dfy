/**
 * The card list of app/page.tsx: cards are kept sorted by year, then date, then file name;
 * new cards are merged in and their placeholder names renumbered by position; cards are
 * updated by id and removed by id.
 */
module CardList {
  import opened Wrappers
  import opened Decimal
  import opened JsText
  import opened TimelineCards

  /**
   * `localeCompare` on file names, taken here as code-point lexicographic order: negative,
   * zero or positive as `s` sorts before, with or after `t`. It is zero only for equal names.
   */
  function CompareNames(s: string, t: string): (c: int)
    ensures -1 <= c <= 1
    ensures c == 0 <==> s == t
  {
    if s == [] || t == [] then
      (if s == [] && t == [] then 0 else if s == [] then -1 else 1)
    else if s[0] != t[0] then
      (if s[0] < t[0] then -1 else 1)
    else
      assert s == [s[0]] + s[1..] && t == [t[0]] + t[1..];
      CompareNames(s[1..], t[1..])
  }

  /** Swapping the names flips the sign. */
  lemma {:induction false} CompareNamesFlip(s: string, t: string)
    ensures CompareNames(t, s) == -CompareNames(s, t)
    decreases |s|
  {
    if s != [] && t != [] && s[0] == t[0] {
      CompareNamesFlip(s[1..], t[1..]);
    }
  }

  /** The name order is transitive. */
  lemma {:induction false} CompareNamesTrans(s: string, t: string, u: string)
    requires CompareNames(s, t) <= 0 && CompareNames(t, u) <= 0
    ensures CompareNames(s, u) <= 0
    decreases |s|
  {
    if s != [] && t != [] && u != [] && s[0] == t[0] == u[0] {
      CompareNamesTrans(s[1..], t[1..], u[1..]);
    }
  }

  /**
   * The comparator of `sortCards`: the earlier year first; within a year the earlier full date,
   * a dated card before an undated one, and undated cards by file name.
   */
  function Compare(a: TimelineCard, b: TimelineCard): int
  {
    if a.year != b.year then a.year - b.year
    else if a.fullDate.Some? && b.fullDate.Some? then a.fullDate.value.time - b.fullDate.value.time
    else if a.fullDate.Some? && b.fullDate.None? then -1
    else if a.fullDate.None? && b.fullDate.Some? then 1
    else CompareNames(a.filename, b.filename)
  }

  /** `a` may stand before `b` in a sorted list. */
  predicate Le(a: TimelineCard, b: TimelineCard)
  {
    Compare(a, b) <= 0
  }

  /**
   * The comparator is consistent, as `Array.prototype.sort` needs it to be: swapping the
   * arguments flips its sign, so any two cards are ordered one way or the other.
   */
  lemma CompareFlip(a: TimelineCard, b: TimelineCard)
    ensures Compare(b, a) == -Compare(a, b)
    ensures Le(a, b) || Le(b, a)
  {
    CompareNamesFlip(a.filename, b.filename);
  }

  /** The comparator orders transitively. */
  lemma LeTrans(a: TimelineCard, b: TimelineCard, c: TimelineCard)
    requires Le(a, b) && Le(b, c)
    ensures Le(a, c)
  {
    if a.year == b.year == c.year && a.fullDate.None? && b.fullDate.None? && c.fullDate.None? {
      CompareNamesTrans(a.filename, b.filename, c.filename);
    }
  }

  /** What the comparator decides, case by case: year first, then date, then name. */
  lemma CompareCases(a: TimelineCard, b: TimelineCard)
    ensures a.year < b.year ==> Le(a, b) && !Le(b, a)
    ensures a.year == b.year && a.fullDate.Some? && b.fullDate.Some? ==>
      (Le(a, b) <==> a.fullDate.value.time <= b.fullDate.value.time)
    ensures a.year == b.year && a.fullDate.Some? && b.fullDate.None? ==> Le(a, b) && !Le(b, a)
    ensures a.year == b.year && a.fullDate.None? && b.fullDate.None? ==>
      (Le(a, b) <==> CompareNames(a.filename, b.filename) <= 0)
  {
  }

  predicate Sorted(s: seq<TimelineCard>)
  {
    forall i, j :: 0 <= i < j < |s| ==> Le(s[i], s[j])
  }

  /** Sorted up to `hi` except for the card at `j`, which is being moved down. */
  predicate SortedExcept(s: seq<TimelineCard>, hi: nat, j: nat)
    requires hi < |s|
  {
    forall p, q :: 0 <= p < q <= hi && p != j && q != j ==> Le(s[p], s[q])
  }

  /** The card at `j` may stand before every card after it up to `hi`. */
  predicate LeAfter(s: seq<TimelineCard>, j: nat, hi: nat)
    requires j <= hi < |s|
  {
    forall q :: j < q <= hi ==> Le(s[j], s[q])
  }

  lemma InsertStart(s: seq<TimelineCard>, i: nat)
    requires i < |s| && Sorted(s[..i])
    ensures SortedExcept(s, i, i) && LeAfter(s, i, i)
  {
    forall p, q | 0 <= p < q <= i && p != i && q != i
      ensures Le(s[p], s[q])
    {
      assert s[p] == s[..i][p] && s[q] == s[..i][q];
    }
  }

  lemma InsertSwap(s: seq<TimelineCard>, i: nat, j: nat)
    requires 0 < j <= i < |s| && SortedExcept(s, i, j) && LeAfter(s, j, i) && Compare(s[j - 1], s[j]) > 0
    ensures var t := s[j - 1 := s[j]][j := s[j - 1]];
      SortedExcept(t, i, j - 1) && LeAfter(t, j - 1, i)
  {
    CompareFlip(s[j - 1], s[j]);
  }

  lemma InsertDone(s: seq<TimelineCard>, i: nat, j: nat)
    requires j <= i < |s| && SortedExcept(s, i, j) && LeAfter(s, j, i)
    requires j > 0 ==> Le(s[j - 1], s[j])
    ensures Sorted(s[..i + 1])
  {
    forall p, q | 0 <= p < q <= i
      ensures Le(s[p], s[q])
    {
      if q == j && p < j - 1 {
        LeTrans(s[p], s[j - 1], s[j]);
      }
    }
  }

  /** Exchanges two cards of the array. */
  method Swap(a: array<TimelineCard>, i: nat, j: nat)
    requires i < a.Length && j < a.Length
    modifies a
    ensures a[..] == old(a[..])[i := old(a[j])][j := old(a[i])]
    ensures multiset(a[..]) == multiset(old(a[..]))
  {
    a[i], a[j] := a[j], a[i];
  }

  /**
   * `sortCards(cards)`: `cards.sort(comparator)` in place. The cards end in comparator order and
   * are the same cards as before. Insertion sort stands in for the engine's algorithm.
   */
  method SortCards(a: array<TimelineCard>)
    modifies a
    ensures Sorted(a[..])
    ensures multiset(a[..]) == multiset(old(a[..]))
  {
    var i := 0;
    while i < a.Length
      invariant i <= a.Length && Sorted(a[..i])
      invariant multiset(a[..]) == multiset(old(a[..]))
    {
      InsertStart(a[..], i);
      var j := i;
      while j > 0 && Compare(a[j - 1], a[j]) > 0
        invariant j <= i && SortedExcept(a[..], i, j) && LeAfter(a[..], j, i)
        invariant multiset(a[..]) == multiset(old(a[..]))
      {
        InsertSwap(a[..], i, j);
        Swap(a, j - 1, j);
        j := j - 1;
      }
      InsertDone(a[..], i, j);
      i := i + 1;
    }
    assert a[..i] == a[..];
  }

  /** Sorts a list through an array, as `sortCards` does to the arrays it is handed. */
  method SortedList(cards: seq<TimelineCard>) returns (sorted: seq<TimelineCard>)
    ensures Sorted(sorted) && multiset(sorted) == multiset(cards)
  {
    var a := new TimelineCard[|cards|](i requires 0 <= i < |cards| => cards[i]);
    assert a[..] == cards;
    SortCards(a);
    sorted := a[..];
  }

  /** The placeholder prefix the upload step gives new cards. */
  const PlaceholderPrefix: string := "EVENT_"

  /** The card at `index` of the sorted list: a placeholder name is renumbered by its position. */
  function Renamed(card: TimelineCard, index: nat): TimelineCard
  {
    card.(eventName := if StartsWith(card.eventName, PlaceholderPrefix)
                       then PlaceholderPrefix + IntToString(index + 1) else card.eventName)
  }

  /** The `map` of `addCards` over the sorted list. */
  function RenameEvents(sorted: seq<TimelineCard>): (r: seq<TimelineCard>)
    ensures |r| == |sorted|
  {
    seq(|sorted|, i requires 0 <= i < |sorted| => Renamed(sorted[i], i))
  }

  /** Renaming touches only placeholder names: every other field, and every other name, is kept. */
  lemma RenameKeepsFields(sorted: seq<TimelineCard>, i: nat)
    requires i < |sorted|
    ensures var r := RenameEvents(sorted);
      && r[i].(eventName := sorted[i].eventName) == sorted[i]
      && (StartsWith(r[i].eventName, PlaceholderPrefix) <==> StartsWith(sorted[i].eventName, PlaceholderPrefix))
      && (!StartsWith(sorted[i].eventName, PlaceholderPrefix) ==> r[i].eventName == sorted[i].eventName)
  {
    if StartsWith(sorted[i].eventName, PlaceholderPrefix) {
      var name := RenameEvents(sorted)[i].eventName;
      assert name == PlaceholderPrefix + IntToString(i + 1);
      assert name[..|PlaceholderPrefix|] == PlaceholderPrefix;
    }
  }

  /** The comparator does not read the event name, so a sorted list stays sorted once renamed. */
  lemma RenameKeepsOrder(sorted: seq<TimelineCard>)
    requires Sorted(sorted)
    ensures Sorted(RenameEvents(sorted))
  {
    var r := RenameEvents(sorted);
    forall i, j | 0 <= i < j < |r|
      ensures Le(r[i], r[j])
    {
      assert Compare(r[i], r[j]) == Compare(sorted[i], sorted[j]);
    }
  }

  /** The placeholder names of two positions differ. */
  lemma RenamedDistinct(sorted: seq<TimelineCard>, i: nat, j: nat)
    requires i < j < |sorted|
    requires StartsWith(sorted[i].eventName, PlaceholderPrefix) && StartsWith(sorted[j].eventName, PlaceholderPrefix)
    ensures RenameEvents(sorted)[i].eventName != RenameEvents(sorted)[j].eventName
  {
    var a, b := IntToString(i + 1), IntToString(j + 1);
    IntToStringRoundTrip(i + 1);
    IntToStringRoundTrip(j + 1);
    assert a != b;
    assert RenameEvents(sorted)[i].eventName == PlaceholderPrefix + a;
    assert RenameEvents(sorted)[j].eventName == PlaceholderPrefix + b;
    assert (PlaceholderPrefix + a)[|PlaceholderPrefix|..] == a;
    assert (PlaceholderPrefix + b)[|PlaceholderPrefix|..] == b;
  }

  /**
   * `addCards(newCards)`: the old and new cards together, sorted, with placeholder names
   * renumbered by position.
   */
  method AddCards(cards: seq<TimelineCard>, newCards: seq<TimelineCard>)
    returns (renamedCards: seq<TimelineCard>, ghost sortedCards: seq<TimelineCard>)
    ensures Sorted(sortedCards) && multiset(sortedCards) == multiset(cards + newCards)
    ensures renamedCards == RenameEvents(sortedCards)
  {
    var allCards := cards + newCards;
    var sorted := SortedList(allCards);
    sortedCards := sorted;
    renamedCards := RenameEvents(sorted);
  }

  /**
   * A `Partial<TimelineCard>`: each field the update sets. `fullDate` distinguishes a missing key
   * (`None`) from one explicitly set to `undefined` (`Some(None)`).
   */
  datatype Patch = Patch(
    id: Option<string>,
    image: Option<string>,
    filename: Option<string>,
    eventName: Option<string>,
    year: Option<int>,
    fullDate: Option<Option<Instant>>,
    dateSource: Option<string>)

  /** An update that sets only the event name. */
  function EventNamePatch(name: string): Patch
  {
    Patch(None, None, None, Some(name), None, None, None)
  }

  /** `{ ...card, ...updates }`: the fields the update sets replace those of the card. */
  function Merge(card: TimelineCard, p: Patch): TimelineCard
  {
    TimelineCard(
      p.id.GetOr(card.id), p.image.GetOr(card.image), p.filename.GetOr(card.filename),
      p.eventName.GetOr(card.eventName), p.year.GetOr(card.year), p.fullDate.GetOr(card.fullDate),
      p.dateSource.GetOr(card.dateSource))
  }

  /** Applying the same update twice is applying it once, and an event-name update changes only the name. */
  lemma MergeSpec(card: TimelineCard, p: Patch, name: string)
    ensures Merge(Merge(card, p), p) == Merge(card, p)
    ensures Merge(card, EventNamePatch(name)) == card.(eventName := name)
    ensures Merge(card, Patch(None, None, None, None, None, None, None)) == card
  {
  }

  /** `cards.map(card => card.id === id ? { ...card, ...updates } : card)`. */
  function UpdateMatching(cards: seq<TimelineCard>, id: string, updates: Patch): (r: seq<TimelineCard>)
    ensures |r| == |cards|
    ensures forall i :: 0 <= i < |cards| ==> r[i] == if cards[i].id == id then Merge(cards[i], updates) else cards[i]
  {
    if cards == [] then []
    else [if cards[0].id == id then Merge(cards[0], updates) else cards[0]] + UpdateMatching(cards[1..], id, updates)
  }

  /** `if (updates.year)`: a year that is set and not zero. */
  predicate YearTruthy(updates: Patch)
  {
    updates.year.Some? && updates.year.value != 0
  }

  /**
   * `updateCard(id, updates)`: the matching cards take the update and the others stay as they
   * are; the list is sorted again only when the update sets a non-zero year.
   */
  method UpdateCard(cards: seq<TimelineCard>, id: string, updates: Patch) returns (result: seq<TimelineCard>)
    ensures YearTruthy(updates) ==> Sorted(result) && multiset(result) == multiset(UpdateMatching(cards, id, updates))
    ensures !YearTruthy(updates) ==> result == UpdateMatching(cards, id, updates)
  {
    var updatedCards := UpdateMatching(cards, id, updates);
    if YearTruthy(updates) {
      result := SortedList(updatedCards);
    } else {
      result := updatedCards;
    }
  }

  /** One entry of the list `updateAllCards` receives. */
  datatype CardUpdate = CardUpdate(id: string, updates: Patch)

  /** `updates.find(u => u.id === id)`: the first entry for `id`, if any. */
  function FindUpdate(updates: seq<CardUpdate>, id: string): (r: Option<Patch>)
    ensures r.None? <==> forall j :: 0 <= j < |updates| ==> updates[j].id != id
    ensures r.Some? ==> exists j :: (0 <= j < |updates| && updates[j] == CardUpdate(id, r.value)
      && forall k :: 0 <= k < j ==> updates[k].id != id)
  {
    if updates == [] then None
    else if updates[0].id == id then
      assert updates[0] == CardUpdate(id, updates[0].updates);
      Some(updates[0].updates)
    else
      var r := FindUpdate(updates[1..], id);
      if r.Some? then
        var j :| 0 <= j < |updates[1..]| && updates[1..][j] == CardUpdate(id, r.value)
                 && forall k :: 0 <= k < j ==> updates[1..][k].id != id;
        assert updates[j + 1] == CardUpdate(id, r.value);
        r
      else
        r
  }

  /** The first entry for `id` is the one found. */
  lemma {:induction false} FindUpdateFirst(updates: seq<CardUpdate>, id: string, i: nat)
    requires i < |updates| && updates[i].id == id
    requires forall k :: 0 <= k < i ==> updates[k].id != id
    ensures FindUpdate(updates, id) == Some(updates[i].updates)
    decreases i
  {
    if i > 0 {
      FindUpdateFirst(updates[1..], id, i - 1);
    }
  }

  /** The card after `updateAllCards`: merged with its first update, or unchanged. */
  function ApplyFound(card: TimelineCard, update: Option<Patch>): TimelineCard
  {
    if update.Some? then Merge(card, update.value) else card
  }

  /**
   * `updateAllCards(updates)`: every card is merged with the first update for its id and the
   * others are left as they are; the order of the cards is kept.
   */
  function UpdateAllCards(cards: seq<TimelineCard>, updates: seq<CardUpdate>): (r: seq<TimelineCard>)
    ensures |r| == |cards|
    ensures forall i :: 0 <= i < |cards| ==> r[i] == ApplyFound(cards[i], FindUpdate(updates, cards[i].id))
  {
    if cards == [] then []
    else [ApplyFound(cards[0], FindUpdate(updates, cards[0].id))] + UpdateAllCards(cards[1..], updates)
  }

  /** `cards.filter(card => card.id !== id)`. */
  function RemoveCard(cards: seq<TimelineCard>, id: string): (r: seq<TimelineCard>)
    ensures |r| <= |cards|
    ensures forall c :: c in r <==> c in cards && c.id != id
  {
    if cards == [] then []
    else if cards[0].id == id then RemoveCard(cards[1..], id)
    else
      assert forall c :: c in cards <==> c == cards[0] || c in cards[1..];
      [cards[0]] + RemoveCard(cards[1..], id)
  }

  /** Removing keeps the remaining cards in their order: it works piecewise on a split list. */
  lemma {:induction false} RemoveCardAppend(a: seq<TimelineCard>, b: seq<TimelineCard>, id: string)
    ensures RemoveCard(a + b, id) == RemoveCard(a, id) + RemoveCard(b, id)
    decreases |a|
  {
    if a == [] {
      assert a + b == b;
    } else {
      assert (a + b)[0] == a[0] && (a + b)[1..] == a[1..] + b;
      RemoveCardAppend(a[1..], b, id);
    }
  }

  /** A list without the id is kept whole. */
  lemma {:induction false} RemoveCardAbsent(cards: seq<TimelineCard>, id: string)
    requires forall i :: 0 <= i < |cards| ==> cards[i].id != id
    ensures RemoveCard(cards, id) == cards
    decreases |cards|
  {
    if cards != [] {
      RemoveCardAbsent(cards[1..], id);
      assert cards == [cards[0]] + cards[1..];
    }
  }
}
