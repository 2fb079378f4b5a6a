/** The teacher's configuration: the two durations and the ordered checklist,
    the built-in defaults, the merge performed when a stored record is loaded,
    and the validation applied when new durations are saved. */
module Settings {
  import opened Wrappers
  import opened Checklist

  /** `appSettings`: durations in minutes and the checklist in display order. */
  datatype Settings = Settings(sessionMins: int, breakMins: int, items: seq<Item>)

  /** A checklist item as it comes out of the stored JSON record. The message
      is absent (or empty) for items saved before messages existed. */
  datatype StoredItem = StoredItem(id: string, text: string, completed: bool, modalMessage: Option<string>)

  /** The parsed `classroomAppSettings` record; each field may be absent. */
  datatype Stored = Stored(sessionMins: Option<int>, breakMins: Option<int>, items: Option<seq<StoredItem>>)

  const DefaultSessionMins: int := 25
  const DefaultBreakMins: int := 5

  const SlidesText: string := "Open presentation slides"
  const SlidesMessage: string :=
    "Please ensure your **presentation slides** are open and ready for display."
  const AudioText: string := "Check audio & microphone"
  const AudioMessage: string :=
    "Verify that your **audio output and microphone** are working correctly for clear communication."
  const HandoutsText: string := "Distribute handouts (if any)"
  const HandoutsMessage: string :=
    "If you have any **handouts**, please distribute them to the students now."
  const BoardText: string := "Write agenda on whiteboard"
  const BoardMessage: string :=
    "Write today's session **agenda or key topics** on the whiteboard."

  /** `DEFAULT_SETTINGS.checklistItems`. */
  function DefaultItems(): seq<Item> {
    [ Item("slides", SlidesText, false, SlidesMessage),
      Item("audio", AudioText, false, AudioMessage),
      Item("handouts", HandoutsText, false, HandoutsMessage),
      Item("board", BoardText, false, BoardMessage) ]
  }

  lemma DefaultItemsUnconfirmed()
    ensures forall i :: 0 <= i < |DefaultItems()| ==> !DefaultItems()[i].completed
  {
  }

  lemma DefaultMessagesPresent()
    ensures MessagesPresent(DefaultItems())
  {
  }

  function Defaults(): Settings {
    Settings(DefaultSessionMins, DefaultBreakMins, DefaultItems())
  }

  /** An item as `JSON.stringify` writes it. */
  function StoreItem(item: Item): StoredItem {
    StoredItem(item.id, item.text, item.completed, Some(item.modalMessage))
  }

  function StoreItems(items: seq<Item>): (r: seq<StoredItem>)
    ensures |r| == |items|
    ensures forall i :: 0 <= i < |items| ==> r[i] == StoreItem(items[i])
  {
    seq(|items|, i requires 0 <= i < |items| => StoreItem(items[i]))
  }

  /** `saveSettings`: the whole configuration goes to storage. */
  function Store(s: Settings): (st: Stored)
    ensures st.sessionMins == Some(s.sessionMins) && st.breakMins == Some(s.breakMins)
    ensures st.items.Some? && |st.items.value| == |s.items|
    ensures forall i :: 0 <= i < |s.items| ==>
      && st.items.value[i].id == s.items[i].id && st.items.value[i].text == s.items[i].text
      && st.items.value[i].completed == s.items[i].completed
      && st.items.value[i].modalMessage == Some(s.items[i].modalMessage)
  {
    Stored(Some(s.sessionMins), Some(s.breakMins), Some(StoreItems(s.items)))
  }

  /** One item after loading: a missing or empty message (`item.modalMessage
      || ...`) is replaced by the generated one, and `completed` is cleared. */
  function LoadItem(si: StoredItem): (item: Item)
    ensures item.id == si.id && item.text == si.text && !item.completed
    ensures item.modalMessage != ""
    ensures si.modalMessage.Some? && si.modalMessage.value != "" ==> item.modalMessage == si.modalMessage.value
    ensures si.modalMessage.None? || si.modalMessage.value == "" ==> item.modalMessage == DefaultMessage(si.text)
  {
    var msg := if si.modalMessage.Some? && si.modalMessage.value != "" then si.modalMessage.value
               else DefaultMessage(si.text);
    Item(si.id, si.text, false, msg)
  }

  /** The `map` over the stored items that backfills messages, followed by the
      `forEach` that clears `completed`. */
  function LoadItems(src: seq<StoredItem>): (r: seq<Item>)
    ensures |r| == |src|
    ensures forall i :: 0 <= i < |src| ==> r[i] == LoadItem(src[i])
  {
    seq(|src|, i requires 0 <= i < |src| => LoadItem(src[i]))
  }

  /** Loading what was stored keeps every item as it was, except that it is
      unconfirmed, as long as every item had a message. */
  lemma LoadStoredItems(items: seq<Item>)
    requires MessagesPresent(items)
    ensures LoadItems(StoreItems(items)) == SetAllCompleted(items, false)
  {
  }

  /** `{ ...defaults, ...stored }` followed by the message backfill: each
      field present in storage wins, each absent one falls back to its
      default, and the stored item order and texts are kept. With no stored
      list the page maps over the default items; as each of them already has
      a message that map is the identity (`BackfillKeepsDefaults`). */
  function Merge(st: Stored, defaults: Settings): (r: Settings)
    ensures r.sessionMins == st.sessionMins.GetOr(defaults.sessionMins)
    ensures r.breakMins == st.breakMins.GetOr(defaults.breakMins)
    ensures st.items.Some? ==> r.items == LoadItems(st.items.value)
    ensures st.items.None? ==> r.items == defaults.items
    ensures st.items.Some? ==> MessagesPresent(r.items)
    ensures st.items.Some? ==> forall i :: 0 <= i < |r.items| ==> !r.items[i].completed
  {
    var items := if st.items.Some? then LoadItems(st.items.value) else defaults.items;
    Settings(st.sessionMins.GetOr(defaults.sessionMins), st.breakMins.GetOr(defaults.breakMins), items)
  }

  /** The message backfill leaves the default items as they are. */
  lemma BackfillKeepsDefaults()
    ensures LoadItems(StoreItems(DefaultItems())) == DefaultItems()
  {
    DefaultItemsUnconfirmed();
    DefaultMessagesPresent();
    LoadStoredItems(DefaultItems());
    assert SetAllCompleted(DefaultItems(), false) == DefaultItems();
  }

  /** `loadSettings`: a copy of the defaults when nothing is stored, the merge
      otherwise. Either way every item has a message and starts unconfirmed. */
  function LoadSettings(stored: Option<Stored>): (r: Settings)
    ensures stored.Some? ==>
      && r.sessionMins == stored.value.sessionMins.GetOr(DefaultSessionMins)
      && r.breakMins == stored.value.breakMins.GetOr(DefaultBreakMins)
    ensures forall i :: 0 <= i < |r.items| ==> !r.items[i].completed
  {
    DefaultItemsUnconfirmed();
    if stored.None? then Defaults() else Merge(stored.value, Defaults())
  }

  /** Every loaded item has a non-empty confirmation message. */
  lemma LoadedMessagesPresent(stored: Option<Stored>)
    ensures MessagesPresent(LoadSettings(stored).items)
  {
    DefaultMessagesPresent();
  }

  /** With nothing stored, loading yields 25 and 5 minutes and the four fixed
      items, in order, all unconfirmed. */
  lemma LoadWithNothingStored()
    ensures var r := LoadSettings(None);
      && r.sessionMins == 25 && r.breakMins == 5
      && r.items == DefaultItems() && |r.items| == 4
      && r.items[0].id == "slides" && r.items[1].id == "audio"
      && r.items[2].id == "handouts" && r.items[3].id == "board"
  {
  }

  /** With a stored record, its item list (or the defaults when it has none)
      comes through item by item: same order, ids and texts, a message kept
      when present and non-empty and generated otherwise. */
  lemma LoadMergesStored(st: Stored)
    ensures var r := LoadSettings(Some(st));
      var src := st.items.GetOr(StoreItems(DefaultItems()));
      && |r.items| == |src|
      && forall i :: 0 <= i < |src| ==> r.items[i] == LoadItem(src[i])
  {
    if st.items.None? {
      BackfillKeepsDefaults();
    }
  }

  /** Saving a configuration and loading it again gives the same
      configuration with every item unconfirmed, provided every item already
      had a message. */
  lemma LoadAfterStore(s: Settings)
    requires MessagesPresent(s.items)
    ensures LoadSettings(Some(Store(s))) == s.(items := SetAllCompleted(s.items, false))
  {
    LoadStoredItems(s.items);
  }

  /** Loading is stable under a save: a loaded configuration, stored and loaded
      again, comes back unchanged. */
  lemma LoadIsIdempotent(stored: Option<Stored>)
    ensures LoadSettings(Some(Store(LoadSettings(stored)))) == LoadSettings(stored)
  {
    var s := LoadSettings(stored);
    LoadedMessagesPresent(stored);
    LoadAfterStore(s);
    assert SetAllCompleted(s.items, false) == s.items;
  }

  /** The save-time check on a parsed duration: a number, and positive. */
  predicate ValidDuration(d: Option<int>) {
    d.Some? && d.value > 0
  }

  /** The durations `saveCurrentSettings` would adopt: both, when both pass
      the check, and otherwise none, leaving the old values in place. */
  function ValidateDurations(session: Option<int>, brk: Option<int>): (r: Option<(int, int)>)
    ensures r.Some? <==> ValidDuration(session) && ValidDuration(brk)
    ensures r.Some? ==> r.value.0 == session.value > 0 && r.value.1 == brk.value > 0
  {
    if session.None? || session.value <= 0 || brk.None? || brk.value <= 0 then None
    else Some((session.value, brk.value))
  }

  /** The configuration invariant: positive durations, distinct item ids and a
      message on every item. */
  predicate WellFormed(s: Settings) {
    && s.sessionMins > 0
    && s.breakMins > 0
    && UniqueIds(s.items)
    && MessagesPresent(s.items)
  }

  /** The defaults satisfy the invariant. */
  lemma DefaultsWellFormed()
    ensures WellFormed(Defaults())
  {
  }
}
