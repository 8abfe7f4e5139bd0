/**
 * Reminder scheduling (app/ ItemEntryScreen.kt): `setAlarm`, `cancelAlarm`,
 * `editAlarm` and the list of alarms the entry form shows.  The Context is an
 * object holding the two stores these functions change: the shared
 * preferences file "alarms" (the ledger: key -> stored value) and the alarm
 * manager's registrations (request code -> the pending broadcast).
 */
module Alarms {
  import opened Jvm

  /** A value in the preferences file: a Long, a String, or any other type. */
  datatype LedgerVal = LongV(millis: int) | StrV(text: string) | OtherV

  /** A pending "com.example.SET_ALARM" broadcast: its trigger time and the
      `item_title` extra. */
  datatype Alarm = Alarm(triggerAtMillis: int, itemTitle: string)

  /** `keys` lists every key of the ledger once: an iteration order of
      `sharedPreferences.all`. */
  predicate Distinct(keys: seq<string>) {
    forall i, j | 0 <= i < j < |keys| :: keys[i] != keys[j]
  }

  predicate Enumerates(keys: seq<string>, ledger: map<string, LedgerVal>) {
    Distinct(keys) && (forall i | 0 <= i < |keys| :: keys[i] in ledger) && (forall k | k in ledger :: k in keys)
  }

  /** Every registration sits under its own title's hash code, the only
      request code `setAlarm` uses; so a title has at most one registration. */
  predicate WellKeyed(registrations: map<int, Alarm>) {
    forall c | c in registrations :: HashCode(registrations[c].itemTitle) == c
  }

  class AlarmContext {
    var ledger: map<string, LedgerVal>
    var registrations: map<int, Alarm>

    ghost predicate Valid()
      reads this
    {
      WellKeyed(registrations)
    }

    constructor (ledger: map<string, LedgerVal>, registrations: map<int, Alarm>)
      requires WellKeyed(registrations)
      ensures this.ledger == ledger && this.registrations == registrations
      ensures Valid()
    {
      this.ledger := ledger;
      this.registrations := registrations;
    }
  }

  /** The ledger after `putLong(itemTitle, triggerAtMillis)`. */
  function LedgerAfterSet(ledger: map<string, LedgerVal>, itemTitle: string, triggerAtMillis: int): (r: map<string, LedgerVal>)
    ensures r.Keys == ledger.Keys + {itemTitle}
    ensures r[itemTitle] == LongV(triggerAtMillis)
    ensures forall k | k in ledger && k != itemTitle :: r[k] == ledger[k]
  {
    ledger[itemTitle := LongV(triggerAtMillis)]
  }

  /** The ledger after `remove(alarmId.toString())`. */
  function LedgerAfterCancel(ledger: map<string, LedgerVal>, alarmId: int): (r: map<string, LedgerVal>)
    ensures r.Keys == ledger.Keys - {IntToString(alarmId)}
    ensures forall k | k in r :: r[k] == ledger[k]
  {
    ledger - {IntToString(alarmId)}
  }

  /** `setAlarm`: registers the broadcast under the title's hash code, replacing
      whatever had that request code, and records the time under the title. */
  method SetAlarm(context: AlarmContext, triggerAtMillis: int, itemTitle: string)
    requires context.Valid()
    modifies context
    ensures context.Valid()
    ensures context.registrations == old(context.registrations)[HashCode(itemTitle) := Alarm(triggerAtMillis, itemTitle)]
    ensures context.ledger == LedgerAfterSet(old(context.ledger), itemTitle, triggerAtMillis)
  {
    var requestCode := HashCode(itemTitle);
    context.registrations := context.registrations[requestCode := Alarm(triggerAtMillis, itemTitle)];
    context.ledger := context.ledger[itemTitle := LongV(triggerAtMillis)];
  }

  /** `cancelAlarm`: drops the registration with request code `alarmId` and
      the ledger key `alarmId.toString()`. */
  method CancelAlarm(context: AlarmContext, alarmId: int)
    requires context.Valid()
    modifies context
    ensures context.Valid()
    ensures context.registrations == old(context.registrations) - {alarmId}
    ensures context.ledger == LedgerAfterCancel(old(context.ledger), alarmId)
  {
    context.registrations := context.registrations - {alarmId};
    context.ledger := context.ledger - {IntToString(alarmId)};
  }

  /** Cancelling by the title's hash code removes the title's ledger entry
      only when the title is itself the decimal string of that hash code. */
  lemma CancelKeyMismatch(ledger: map<string, LedgerVal>, itemTitle: string, triggerAtMillis: int)
    ensures var l := LedgerAfterCancel(LedgerAfterSet(ledger, itemTitle, triggerAtMillis), HashCode(itemTitle));
      (itemTitle in l && l[itemTitle] == LongV(triggerAtMillis)) <==> itemTitle != IntToString(HashCode(itemTitle))
  {
  }

  /** So a title that is not a numeral (any title with a letter or a space)
      keeps its ledger entry through `setAlarm` then `cancelAlarm`. */
  lemma CancelKeepsTitleEntry(ledger: map<string, LedgerVal>, itemTitle: string, triggerAtMillis: int)
    requires !IsNumeral(itemTitle)
    ensures var l := LedgerAfterCancel(LedgerAfterSet(ledger, itemTitle, triggerAtMillis), HashCode(itemTitle));
      itemTitle in l && l[itemTitle] == LongV(triggerAtMillis)
  {
    IntToStringIsNumeral(HashCode(itemTitle));
  }

  /** The ledger after cancelling by title, as `setAlarm` keys it. */
  function LedgerAfterCancelReminder(ledger: map<string, LedgerVal>, itemTitle: string): (r: map<string, LedgerVal>)
    ensures r.Keys == ledger.Keys - {itemTitle}
    ensures forall k | k in r :: r[k] == ledger[k]
  {
    ledger - {itemTitle}
  }

  /** Cancellation keyed the way `setAlarm` keys: by the title for the ledger
      and by its hash code for the registration. */
  method CancelReminder(context: AlarmContext, itemTitle: string)
    requires context.Valid()
    modifies context
    ensures context.Valid()
    ensures context.registrations == old(context.registrations) - {HashCode(itemTitle)}
    ensures context.ledger == LedgerAfterCancelReminder(old(context.ledger), itemTitle)
  {
    context.registrations := context.registrations - {HashCode(itemTitle)};
    context.ledger := context.ledger - {itemTitle};
  }

  /** Scheduling then cancelling by title leaves no trace of the title. */
  lemma CancelReminderUndoesSet(ledger: map<string, LedgerVal>, registrations: map<int, Alarm>,
                                itemTitle: string, triggerAtMillis: int)
    ensures LedgerAfterCancelReminder(LedgerAfterSet(ledger, itemTitle, triggerAtMillis), itemTitle)
            == LedgerAfterCancelReminder(ledger, itemTitle)
    ensures registrations[HashCode(itemTitle) := Alarm(triggerAtMillis, itemTitle)] - {HashCode(itemTitle)}
            == registrations - {HashCode(itemTitle)}
  {
  }

  /** The entry form's `alarms` list (time, title) and the Context it schedules through. */
  class ItemInputForm {
    const context: AlarmContext
    var alarms: seq<(int, string)>

    constructor (context: AlarmContext)
      ensures this.context == context && alarms == []
    {
      this.context := context;
      alarms := [];
    }

    /** Confirming the date and time pickers: `setAlarm`, then the pair is
        appended to the list. */
    method ConfirmAlarm(triggerAtMillis: int, itemTitle: string)
      requires context.Valid()
      modifies this`alarms, context
      ensures context.Valid()
      ensures alarms == old(alarms) + [(triggerAtMillis, itemTitle)]
      ensures context.ledger == LedgerAfterSet(old(context.ledger), itemTitle, triggerAtMillis)
      ensures context.registrations == old(context.registrations)[HashCode(itemTitle) := Alarm(triggerAtMillis, itemTitle)]
    {
      SetAlarm(context, triggerAtMillis, itemTitle);
      alarms := alarms + [(triggerAtMillis, itemTitle)];
    }

    /** The delete button of row `index`: the pair is removed, then
        `cancelAlarm(title.hashCode())`. */
    method DeleteAlarm(index: nat)
      requires index < |alarms|
      requires context.Valid()
      modifies this`alarms, context
      ensures context.Valid()
      ensures |alarms| == |old(alarms)| - 1
      ensures forall i | 0 <= i < index :: alarms[i] == old(alarms)[i]
      ensures forall i | index <= i < |alarms| :: alarms[i] == old(alarms)[i + 1]
      ensures var title := old(alarms)[index].1;
        && context.ledger == LedgerAfterCancel(old(context.ledger), HashCode(title))
        && context.registrations == old(context.registrations) - {HashCode(title)}
    {
      var title := alarms[index].1;
      alarms := alarms[..index] + alarms[index + 1..];
      CancelAlarm(context, HashCode(title));
    }

    /** `editAlarm` once its pickers are confirmed with `newTime`: the pair
        gets the new time and keeps its title, then the old alarm is cancelled
        and the new one set, so the ledger ends with the new time. */
    method EditAlarm(index: nat, newTime: int)
      requires index < |alarms|
      requires context.Valid()
      modifies this`alarms, context
      ensures context.Valid()
      ensures alarms == old(alarms)[index := (newTime, old(alarms)[index].1)]
      ensures var title := old(alarms)[index].1;
        && context.ledger == LedgerAfterSet(LedgerAfterCancel(old(context.ledger), HashCode(title)), title, newTime)
        && title in context.ledger && context.ledger[title] == LongV(newTime)
        && context.registrations == (old(context.registrations) - {HashCode(title)})[HashCode(title) := Alarm(newTime, title)]
    {
      var currentAlarm := alarms[index];
      var title := currentAlarm.1;
      alarms := alarms[index := (newTime, title)];
      CancelAlarm(context, HashCode(title));
      SetAlarm(context, newTime, title);
    }
  }
}
