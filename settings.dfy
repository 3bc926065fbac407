/**
 * The timeout preference and the first-scan flag of the settings page,
 * kept in the extension's local key-value storage.
 *
 * The storage is a map from keys to values; a write or a read that the
 * storage rejects is the parameter `fails`, and every operation then
 * takes the path its `catch` block takes. The functions below say what
 * each operation reads or writes; the class `SettingsStore` performs the
 * operations on its `items` field and is proved against them.
 */
module Settings {

  /** The slider's range and the fallback, all in seconds. */
  const MinSeconds := 5
  const MaxSeconds := 30
  const DefaultSeconds := 15

  const TimeoutKey := "timeout"
  const ScannedKey := "hasScanned"

  /** What the storage holds under a key. */
  datatype Value = Number(n: int) | Flag(b: bool) | Text(s: string)

  type Items = map<string, Value>

  /** JavaScript truthiness of a stored value. */
  predicate Truthy(v: Value) {
    match v
    case Number(n) => n != 0
    case Flag(b) => b
    case Text(s) => s != ""
  }

  /**
   * The shapes the extension writes: a millisecond number (a whole
   * number of seconds) under "timeout" and a flag under "hasScanned".
   */
  predicate WellTyped(items: Items) {
    (TimeoutKey in items ==> items[TimeoutKey].Number? && items[TimeoutKey].n % 1000 == 0)
    && (ScannedKey in items ==> items[ScannedKey].Flag?)
  }

  /** `Math.floor(ms / 1000)`: Dafny's division by a positive divisor already rounds down. */
  function FloorSeconds(ms: int): (s: int)
    ensures s * 1000 <= ms < s * 1000 + 1000
  {
    ms / 1000
  }

  /** The store after `saveSettings({ timeout: seconds })` succeeds. */
  function Saved(items: Items, seconds: int): (r: Items)
    ensures r.Keys == items.Keys + {TimeoutKey}
    ensures r[TimeoutKey] == Number(seconds * 1000)
    ensures forall k :: k in items && k != TimeoutKey ==> r[k] == items[k]
  {
    items[TimeoutKey := Number(seconds * 1000)]
  }

  /** The seconds `loadSettings` derives: the stored milliseconds rounded down, or the default when the slot is missing or 0. */
  function LoadedSeconds(items: Items): (s: int)
    requires WellTyped(items)
    ensures TimeoutKey in items && items[TimeoutKey].n != 0 ==> s * 1000 == items[TimeoutKey].n
    ensures TimeoutKey !in items || items[TimeoutKey].n == 0 ==> s == DefaultSeconds
  {
    if TimeoutKey in items && Truthy(items[TimeoutKey]) then FloorSeconds(items[TimeoutKey].n)
    else DefaultSeconds
  }

  /** What `loadSettings` returns: milliseconds, the default when the read fails. */
  function LoadResult(items: Items, fails: bool): (ms: int)
    requires WellTyped(items)
    ensures ms % 1000 == 0
    ensures fails ==> ms == DefaultSeconds * 1000
  {
    if fails then DefaultSeconds * 1000 else LoadedSeconds(items) * 1000
  }

  /** What `getCurrentTimeout` returns: the stored milliseconds, or the default when they are missing, 0 or unreadable. */
  function CurrentTimeout(items: Items, fails: bool): (ms: int)
    requires WellTyped(items)
    ensures ms != 0
    ensures !fails && TimeoutKey in items && items[TimeoutKey].n != 0 ==> ms == items[TimeoutKey].n
    ensures fails || TimeoutKey !in items || items[TimeoutKey].n == 0 ==> ms == DefaultSeconds * 1000
  {
    if !fails && TimeoutKey in items && Truthy(items[TimeoutKey]) then items[TimeoutKey].n
    else DefaultSeconds * 1000
  }

  /** The store after `markScanned` succeeds. */
  function Marked(items: Items): (r: Items)
    ensures r.Keys == items.Keys + {ScannedKey}
    ensures r[ScannedKey] == Flag(true)
    ensures forall k :: k in items && k != ScannedKey ==> r[k] == items[k]
  {
    items[ScannedKey := Flag(true)]
  }

  /** What `isFirstScan` returns: no truthy flag stored; a failed read answers false. */
  function FirstScan(items: Items, fails: bool): (first: bool)
    ensures fails ==> !first
    ensures !fails ==> (first <==> ScannedKey !in items || !Truthy(items[ScannedKey]))
  {
    !fails && !(ScannedKey in items && Truthy(items[ScannedKey]))
  }

  /** Both writes keep the store in the shapes the extension uses. */
  lemma WritesWellTyped(items: Items, seconds: int)
    requires WellTyped(items)
    ensures WellTyped(Saved(items, seconds))
    ensures WellTyped(Marked(items))
  {
    assert seconds * 1000 % 1000 == 0;
  }

  /**
   * Saving a non-zero number of seconds and loading gives it back,
   * whatever it is: nothing clamps it to the slider's range. Saving 0
   * loads back as the default.
   */
  lemma SaveLoadRoundTrip(items: Items, seconds: int)
    requires WellTyped(items)
    ensures WellTyped(Saved(items, seconds))
    ensures seconds != 0 ==> LoadedSeconds(Saved(items, seconds)) == seconds
    ensures seconds == 0 ==> LoadedSeconds(Saved(items, seconds)) == DefaultSeconds
  {
    WritesWellTyped(items, seconds);
  }

  /** On a store the extension wrote, `getCurrentTimeout` and `loadSettings` agree. */
  lemma CurrentTimeoutIsLoadResult(items: Items, fails: bool)
    requires WellTyped(items)
    ensures CurrentTimeout(items, fails) == LoadResult(items, fails)
  {
  }

  /** The background's timeout after a save is the saved seconds in milliseconds, or the default for 0. */
  lemma SavedTimeoutReachesBackground(items: Items, seconds: int)
    requires WellTyped(items)
    ensures WellTyped(Saved(items, seconds))
    ensures CurrentTimeout(Saved(items, seconds), false) == if seconds == 0 then DefaultSeconds * 1000 else seconds * 1000
  {
    WritesWellTyped(items, seconds);
  }

  /** Once marked, the next scan is not a first scan; saving the timeout does not change that answer. */
  lemma MarkedIsNotFirst(items: Items, seconds: int)
    ensures !FirstScan(Marked(items), false)
    ensures FirstScan(Saved(items, seconds), false) == FirstScan(items, false)
  {
    assert TimeoutKey != ScannedKey;
  }

  /** Marking leaves the timeout alone. */
  lemma MarkKeepsTimeout(items: Items, fails: bool)
    requires WellTyped(items)
    ensures WellTyped(Marked(items))
    ensures LoadResult(Marked(items), fails) == LoadResult(items, fails)
    ensures CurrentTimeout(Marked(items), fails) == CurrentTimeout(items, fails)
  {
    WritesWellTyped(items, 0);
    assert TimeoutKey != ScannedKey;
    assert TimeoutKey in Marked(items) <==> TimeoutKey in items;
  }

  /** The storage and the dialog's slider. */
  class SettingsStore {
    var items: Items
    /** The slider's value, as `loadSettings` sets it; the number shown beside it is the same value. */
    var slider: int

    predicate Valid()
      reads this
    {
      WellTyped(items)
    }

    /** The page before `initSettings` runs: the slider holds the value `markup` of the page's markup. */
    constructor(items0: Items, markup: int)
      requires WellTyped(items0)
      ensures Valid() && items == items0 && slider == markup
    {
      items := items0;
      slider := markup;
    }

    /** `initSettings`: wires the dialog, then `loadSettings` moves the slider to the stored seconds. */
    method InitSettings(fails: bool)
      requires Valid()
      modifies this`slider
      ensures slider == if fails then old(slider) else LoadedSeconds(items)
    {
      var _ := LoadSettings(fails);
    }

    /** `saveSettings`: stores the seconds as milliseconds; a rejected write leaves the store as it was. */
    method SaveSettings(seconds: int, fails: bool)
      requires Valid()
      modifies this`items
      ensures Valid()
      ensures items == if fails then old(items) else Saved(old(items), seconds)
    {
      WritesWellTyped(items, seconds);
      if !fails {
        items := items[TimeoutKey := Number(seconds * 1000)];
      }
    }

    /** `loadSettings`: moves the slider to the stored seconds and returns them in milliseconds. */
    method LoadSettings(fails: bool) returns (ms: int)
      requires Valid()
      modifies this`slider
      ensures ms == LoadResult(items, fails)
      ensures slider == if fails then old(slider) else LoadedSeconds(items)
    {
      if fails {
        return DefaultSeconds * 1000;
      }
      var seconds := DefaultSeconds;
      if TimeoutKey in items && Truthy(items[TimeoutKey]) {
        seconds := FloorSeconds(items[TimeoutKey].n);
      }
      slider := seconds;
      ms := seconds * 1000;
    }

    /** `getCurrentTimeout`, as the background reads it before each check. */
    method GetCurrentTimeout(fails: bool) returns (ms: int)
      requires Valid()
      ensures ms == CurrentTimeout(items, fails)
    {
      ms := DefaultSeconds * 1000;
      if !fails && TimeoutKey in items && Truthy(items[TimeoutKey]) {
        ms := items[TimeoutKey].n;
      }
    }

    /** `isFirstScan`. */
    method IsFirstScan(fails: bool) returns (first: bool)
      ensures first == FirstScan(items, fails)
    {
      if fails {
        return false;
      }
      first := !(ScannedKey in items && Truthy(items[ScannedKey]));
    }

    /** `markScanned`: a rejected write leaves the store as it was. */
    method MarkScanned(fails: bool)
      requires Valid()
      modifies this`items
      ensures Valid()
      ensures items == if fails then old(items) else Marked(old(items))
    {
      WritesWellTyped(items, 0);
      if !fails {
        items := items[ScannedKey := Flag(true)];
      }
    }

    /** The slider's `input` event: the user picks a value in the slider's range. */
    method MoveSlider(seconds: int)
      requires MinSeconds <= seconds <= MaxSeconds
      modifies this`slider
      ensures slider == seconds
    {
      slider := seconds;
    }

    /** The dialog's confirm button: saves the slider's seconds. */
    method Confirm(fails: bool)
      requires Valid()
      modifies this`items
      ensures Valid()
      ensures items == if fails then old(items) else Saved(old(items), slider)
    {
      SaveSettings(slider, fails);
    }

    /** The dialog's cancel button: reloads, so the slider returns to the saved seconds. */
    method Cancel(fails: bool)
      requires Valid()
      modifies this`slider
      ensures slider == if fails then old(slider) else LoadedSeconds(items)
    {
      var _ := LoadSettings(fails);
    }
  }

  /**
   * Opening the page and confirming the dialog without moving the slider
   * stores the seconds that were loaded, so a stored timeout survives
   * unchanged.
   */
  method ConfirmUnchanged(items0: Items, markup: int) returns (st: SettingsStore)
    requires WellTyped(items0)
    ensures st.items == Saved(items0, LoadedSeconds(items0))
    ensures TimeoutKey in items0 && Truthy(items0[TimeoutKey]) ==> st.items == items0
  {
    st := new SettingsStore(items0, markup);
    st.InitSettings(false);
    st.Confirm(false);
  }
}
