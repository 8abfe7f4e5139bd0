/**
 * The reminder list of the details screen (app/ ItemDetailsScreen.kt):
 * `loadAlarms` maps the ledger's entries, in the map's iteration order, to
 * (time, title) pairs, keeping those with the item's title and a readable time.
 */
module Details {
  import opened Wrappers
  import opened Jvm
  import opened Alarms

  /** `(timestamp as? String)?.toLongOrNull() ?: (timestamp as? Long)`. */
  function StoredTime(v: LedgerVal): (r: Option<int>)
    ensures v.LongV? ==> r == Some(v.millis)
    ensures v.StrV? ==> r == ParseLong(v.text)
    ensures v.OtherV? ==> r == None
  {
    match v
    case StrV(text) => ParseLong(text)
    case LongV(millis) => Some(millis)
    case OtherV => None
  }

  /** The `mapNotNull` of `loadAlarms` over the entries with the keys `keys`. */
  function CollectAlarms(ledger: map<string, LedgerVal>, keys: seq<string>, itemTitle: string): (r: seq<(int, string)>)
    requires Distinct(keys) && forall i | 0 <= i < |keys| :: keys[i] in ledger
    ensures r == if itemTitle in keys && StoredTime(ledger[itemTitle]).Some?
                 then [(StoredTime(ledger[itemTitle]).value, itemTitle)] else []
  {
    if keys == [] then []
    else
      var title := keys[0];
      var time := StoredTime(ledger[title]);
      assert forall i | 0 <= i < |keys| - 1 :: keys[1..][i] == keys[i + 1];
      var rest := CollectAlarms(ledger, keys[1..], itemTitle);
      if time.Some? && title == itemTitle then [(time.value, title)] + rest else rest
  }

  /** `loadAlarms(context, itemTitle)`: at most one pair, the item's own
      entry, whatever order the ledger is visited in; Long values as they are,
      String values when `toLongOrNull` reads them, others dropped. */
  function LoadAlarms(ledger: map<string, LedgerVal>, keys: seq<string>, itemTitle: string): (r: seq<(int, string)>)
    requires Enumerates(keys, ledger)
    ensures |r| <= 1
    ensures forall p | p in r :: p.1 == itemTitle
    ensures r == if itemTitle in ledger && StoredTime(ledger[itemTitle]).Some?
                 then [(StoredTime(ledger[itemTitle]).value, itemTitle)] else []
  {
    CollectAlarms(ledger, keys, itemTitle)
  }

  /** After `setAlarm(x, t)` the details screen of `t` lists exactly (x, t). */
  lemma LoadAfterSet(ledger: map<string, LedgerVal>, keys: seq<string>, itemTitle: string, triggerAtMillis: int)
    requires Enumerates(keys, LedgerAfterSet(ledger, itemTitle, triggerAtMillis))
    ensures LoadAlarms(LedgerAfterSet(ledger, itemTitle, triggerAtMillis), keys, itemTitle) == [(triggerAtMillis, itemTitle)]
  {
  }

  /** As written, a deleted reminder whose title is not a numeral is still listed. */
  lemma LoadAfterDelete(ledger: map<string, LedgerVal>, keys: seq<string>, itemTitle: string, triggerAtMillis: int)
    requires !IsNumeral(itemTitle)
    requires Enumerates(keys, LedgerAfterCancel(LedgerAfterSet(ledger, itemTitle, triggerAtMillis), HashCode(itemTitle)))
    ensures LoadAlarms(LedgerAfterCancel(LedgerAfterSet(ledger, itemTitle, triggerAtMillis), HashCode(itemTitle)), keys, itemTitle)
            == [(triggerAtMillis, itemTitle)]
  {
    CancelKeepsTitleEntry(ledger, itemTitle, triggerAtMillis);
  }

  /** A time stored as a decimal String reads back as the same number. */
  lemma StringTimeReadBack(millis: int)
    requires LONG_MIN <= millis <= LONG_MAX
    ensures StoredTime(StrV(IntToString(millis))) == Some(millis)
  {
    ParseLongOfToString(millis);
  }
}
