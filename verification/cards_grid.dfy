/**
 * The "use file names" action of components/cards-grid.tsx: every card's event name becomes its
 * file name without the extension, cut to 20 characters; each name is also written to the
 * event-name cache, and all updates are handed to the list in one batch.
 */
module CardsGrid {
  import opened Wrappers
  import opened JsText
  import opened TimelineCards
  import opened EventCache
  import opened CardList

  /** The longest event name the action derives. */
  const MaxNameLength: nat := 20

  /**
   * `\.[^/.]+$` matches at `p`: a dot followed by at least one character, none of them a dot or
   * a slash, up to the end of the name.
   */
  predicate IsExtensionAt(name: string, p: nat)
  {
    p + 1 < |name| && name[p] == '.' && forall i :: p < i < |name| ==> name[i] != '.' && name[i] != '/'
  }

  /**
   * The search for the extension among the first `k` characters, when none of the characters
   * after them is a dot or a slash: the last dot, if it is not the final character.
   */
  function ExtensionBefore(name: string, k: nat): (r: Option<nat>)
    requires k <= |name|
    requires forall i :: k <= i < |name| ==> name[i] != '.' && name[i] != '/'
    ensures r.Some? ==> IsExtensionAt(name, r.value)
    ensures r.None? ==> forall p :: 0 <= p < |name| ==> !IsExtensionAt(name, p)
    decreases k
  {
    if k == 0 then None
    else if name[k - 1] == '.' then
      if k < |name| then Some(k - 1) else NoExtensionAfter(name, k - 1); None
    else if name[k - 1] == '/' then
      NoExtensionAfter(name, k - 1);
      None
    else
      ExtensionBefore(name, k - 1)
  }

  /** A dot or a slash at `k` stops every match that starts before it. */
  lemma NoExtensionAfter(name: string, k: nat)
    requires k < |name| && (name[k] == '.' || name[k] == '/')
    requires k + 1 == |name| || name[k] == '/'
    requires forall i :: k < i < |name| ==> name[i] != '.' && name[i] != '/'
    ensures forall p :: 0 <= p < |name| ==> !IsExtensionAt(name, p)
  {
    forall p | 0 <= p < |name|
      ensures !IsExtensionAt(name, p)
    {
      if p < k {
        assert name[k] == '.' || name[k] == '/';
      }
    }
  }

  /** At most one position matches the extension pattern. */
  lemma ExtensionUnique(name: string, p: nat, q: nat)
    requires IsExtensionAt(name, p) && IsExtensionAt(name, q)
    ensures p == q
  {
    assert !(p < q) && !(q < p);
  }

  /** `name.replace(/\.[^/.]+$/, "")`. */
  function StripExtension(name: string): (r: string)
    ensures r <= name
    ensures (exists p :: 0 <= p < |name| && IsExtensionAt(name, p)) ==> IsExtensionAt(name, |r|)
    ensures (forall p :: 0 <= p < |name| ==> !IsExtensionAt(name, p)) ==> r == name
  {
    var ext := ExtensionBefore(name, |name|);
    if ext.Some? then name[..ext.value] else name
  }

  /**
   * `nameWithoutExt.length > 20 ? nameWithoutExt.substring(0, 20) : nameWithoutExt`: at most 20
   * characters, the start of the file name, and the whole name without its extension when that
   * is short enough.
   */
  function DeriveName(filename: string): (name: string)
    ensures |name| <= MaxNameLength && name <= filename
    ensures name <= StripExtension(filename)
    ensures |StripExtension(filename)| <= MaxNameLength ==> name == StripExtension(filename)
  {
    var nameWithoutExt := StripExtension(filename);
    if |nameWithoutExt| > MaxNameLength then nameWithoutExt[..MaxNameLength] else nameWithoutExt
  }

  /** Names without a dot, and names that end with their only dot, keep every character. */
  lemma DeriveNameKeepsPlainNames(filename: string)
    requires forall i :: 0 <= i < |filename| - 1 ==> filename[i] != '.'
    ensures StripExtension(filename) == filename
  {
  }

  /** The batch `handleUseFilenames` hands to `updateAllCards`: one name update per card. */
  function FilenameUpdates(cards: seq<TimelineCard>): (r: seq<CardUpdate>)
    ensures |r| == |cards|
    ensures forall i :: 0 <= i < |cards| ==> r[i].id == cards[i].id
  {
    seq(|cards|, i requires 0 <= i < |cards| => CardUpdate(cards[i].id, EventNamePatch(DeriveName(cards[i].filename))))
  }

  /** One `saveEventName(cacheKey, name)` call. */
  datatype Save = Save(cacheKey: string, name: string)

  /** The call the batch makes for `card`. */
  function CardSave(card: TimelineCard): Save
  {
    Save(GenerateCacheKey(card.fullDate, card.filename), DeriveName(card.filename))
  }

  /** The calls the batch makes, in card order. */
  function CardSaves(cards: seq<TimelineCard>): (r: seq<Save>)
    ensures |r| == |cards| && forall i :: 0 <= i < |cards| ==> r[i] == CardSave(cards[i])
  {
    seq(|cards|, i requires 0 <= i < |cards| => CardSave(cards[i]))
  }

  /** The store after `saves` in order at time `now`; `fits[i]` is whether storage accepts the i-th. */
  function ApplySaves(items: map<string, Entry>, saves: seq<Save>, now: int, fits: seq<bool>, available: bool): map<string, Entry>
    requires |fits| == |saves|
    decreases |saves|
  {
    if saves == [] then items
    else
      var n := |saves| - 1;
      var before := ApplySaves(items, saves[..n], now, fits[..n], available);
      if available && fits[n] then before[StorageKey(saves[n].cacheKey) := Event(saves[n].name, now)] else before
  }

  /**
   * After a run of saves the cache gives back each accepted name (or nothing for an empty one),
   * unless a later save of the run uses the same cache key.
   */
  lemma {:induction false} ApplySavesLoad(items: map<string, Entry>, saves: seq<Save>, now: int, fits: seq<bool>, i: nat)
    requires |fits| == |saves| && i < |saves| && fits[i]
    requires forall j :: i < j < |saves| ==> saves[j].cacheKey != saves[i].cacheKey
    ensures LoadFrom(ApplySaves(items, saves, now, fits, true), saves[i].cacheKey)
      == if saves[i].name == "" then None else Some(saves[i].name)
    decreases |saves|
  {
    var n := |saves| - 1;
    var before := ApplySaves(items, saves[..n], now, fits[..n], true);
    if i == n {
      SaveThenLoad(before, saves[n].cacheKey, saves[n].name, now);
    } else {
      ApplySavesLoad(items, saves[..n], now, fits[..n], i);
      if fits[n] {
        SaveKeepsOtherKeys(before, saves[n].cacheKey, saves[n].name, now, saves[i].cacheKey);
      }
    }
  }

  /**
   * After the batch, the cache gives back each card's derived name (or nothing for an empty one),
   * unless its save failed or a later card of the batch has the same cache key.
   */
  lemma SaveNamesLoad(items: map<string, Entry>, cards: seq<TimelineCard>, now: int, fits: seq<bool>, i: nat)
    requires |fits| == |cards| && i < |cards| && fits[i]
    requires forall j :: i < j < |cards| ==> CardSave(cards[j]).cacheKey != CardSave(cards[i]).cacheKey
    ensures var name := DeriveName(cards[i].filename);
      LoadFrom(ApplySaves(items, CardSaves(cards), now, fits, true), GenerateCacheKey(cards[i].fullDate, cards[i].filename))
      == if name == "" then None else Some(name)
  {
    ApplySavesLoad(items, CardSaves(cards), now, fits, i);
  }

  /**
   * When card ids are distinct, applying the batch sets every card's event name to its derived
   * name and leaves the cards otherwise as they were, in the same order.
   */
  lemma UseFilenamesRenames(cards: seq<TimelineCard>)
    requires forall i, j :: 0 <= i < j < |cards| ==> cards[i].id != cards[j].id
    ensures var r := UpdateAllCards(cards, FilenameUpdates(cards));
      forall i :: 0 <= i < |cards| ==> r[i] == cards[i].(eventName := DeriveName(cards[i].filename))
  {
    var updates := FilenameUpdates(cards);
    forall i | 0 <= i < |cards|
      ensures FindUpdate(updates, cards[i].id) == Some(EventNamePatch(DeriveName(cards[i].filename)))
    {
      FindUpdateFirst(updates, cards[i].id, i);
    }
    forall i | 0 <= i < |cards|
      ensures UpdateAllCards(cards, updates)[i] == cards[i].(eventName := DeriveName(cards[i].filename))
    {
      MergeSpec(cards[i], EventNamePatch(DeriveName(cards[i].filename)), DeriveName(cards[i].filename));
    }
  }

  /** A prefix one longer is the prefix and the next element. */
  lemma TakeOneMore<T>(s: seq<T>, i: nat)
    requires i < |s|
    ensures s[..i + 1] == s[..i] + [s[i]]
  {
  }

  /** One more save: the run's store, then the next call. */
  lemma ApplySavesStep(items: map<string, Entry>, saves: seq<Save>, now: int, fits: seq<bool>, available: bool, i: nat)
    requires |fits| == |saves| && i < |saves|
    ensures var before := ApplySaves(items, saves[..i], now, fits[..i], available);
      ApplySaves(items, saves[..i + 1], now, fits[..i + 1], available)
      == if available && fits[i] then before[StorageKey(saves[i].cacheKey) := Event(saves[i].name, now)] else before
  {
    assert saves[..i + 1][..i] == saves[..i] && fits[..i + 1][..i] == fits[..i];
  }

  /**
   * The `map` callback of `handleUseFilenames` for one card: the name without the extension,
   * limited to 20 characters, saved under the card's cache key (`fits` is whether storage
   * accepts it), and the update that sets it.
   */
  method UseFilename(card: TimelineCard, storage: LocalStorage, now: int, fits: bool) returns (update: CardUpdate)
    modifies storage
    ensures update == CardUpdate(card.id, EventNamePatch(CardSave(card).name))
    ensures storage.available == old(storage.available)
    ensures storage.items == if storage.available && fits
      then old(storage.items)[StorageKey(CardSave(card).cacheKey) := Event(CardSave(card).name, now)]
      else old(storage.items)
  {
    var nameWithoutExt := StripExtension(card.filename);
    var limitedName := if |nameWithoutExt| > MaxNameLength then nameWithoutExt[..MaxNameLength] else nameWithoutExt;
    var cacheKey := GenerateCacheKey(card.fullDate, card.filename);
    storage.SaveEventName(cacheKey, limitedName, now, fits);
    update := CardUpdate(card.id, EventNamePatch(limitedName));
  }

  /**
   * `handleUseFilenames()`: the callback for each card in order, with the save at time `now`
   * (`fits[i]` is whether storage accepts the i-th save); the batch is then passed on whole.
   */
  method HandleUseFilenames(cards: seq<TimelineCard>, storage: LocalStorage, now: int, fits: seq<bool>)
    returns (allUpdates: seq<CardUpdate>)
    requires |fits| == |cards|
    modifies storage
    ensures allUpdates == FilenameUpdates(cards)
    ensures storage.available == old(storage.available)
    ensures storage.items == ApplySaves(old(storage.items), CardSaves(cards), now, fits, storage.available)
  {
    ghost var items0 := storage.items;
    ghost var saves := CardSaves(cards);
    ghost var updates := FilenameUpdates(cards);
    allUpdates := [];
    for i := 0 to |cards|
      invariant storage.available == old(storage.available)
      invariant allUpdates == updates[..i]
      invariant storage.items == ApplySaves(items0, saves[..i], now, fits[..i], storage.available)
    {
      var update := UseFilename(cards[i], storage, now, fits[i]);
      allUpdates := allUpdates + [update];
      ApplySavesStep(items0, saves, now, fits, storage.available, i);
      TakeOneMore(updates, i);
    }
    assert saves[..|cards|] == saves && fits[..|cards|] == fits && updates[..|cards|] == updates;
  }
}
