/**
 * The boot handler (app/ BootReceiver.kt): on BOOT_COMPLETED it walks the
 * ledger and calls `setAlarm(time, title)` for every entry whose value is a
 * Long.  The map's iteration order comes from the platform and is a
 * parameter; `Replayed` states what holds whatever the order.
 */
module Boot {
  import opened Jvm
  import opened Alarms

  const ACTION_BOOT_COMPLETED := "android.intent.action.BOOT_COMPLETED"

  /** The keys among `keys` whose ledger value is a Long. */
  function LongKeysIn(ledger: map<string, LedgerVal>, keys: set<string>): set<string> {
    set k | k in keys && k in ledger && ledger[k].LongV?
  }

  function LongKeys(ledger: map<string, LedgerVal>): set<string> {
    LongKeysIn(ledger, ledger.Keys)
  }

  /** The request codes the titles register under. */
  function Codes(titles: set<string>): set<int> {
    set k | k in titles :: HashCode(k)
  }

  /** `a` is what `setAlarm` registers under `code` for some Long entry of the ledger. */
  predicate FromLedger(ledger: map<string, LedgerVal>, code: int, a: Alarm) {
    a.itemTitle in ledger && ledger[a.itemTitle] == LongV(a.triggerAtMillis) && HashCode(a.itemTitle) == code
  }

  /** `regs` is `regs0` after `setAlarm` for each Long entry among `keys`, in
      some order: every such entry's code is registered, to one Long entry
      with that code (the last in whichever order was used), and every other
      registration is untouched. */
  ghost predicate Replayed(ledger: map<string, LedgerVal>, keys: set<string>, regs0: map<int, Alarm>, regs: map<int, Alarm>) {
    var codes := Codes(LongKeysIn(ledger, keys));
    && regs.Keys == regs0.Keys + codes
    && (forall c | c in regs0 && c !in codes :: regs[c] == regs0[c])
    && (forall c | c in codes :: FromLedger(ledger, c, regs[c]))
  }

  lemma CodesAdd(titles: set<string>, k: string)
    ensures Codes(titles + {k}) == Codes(titles) + {HashCode(k)}
  {
  }

  /** One step of the replay: visiting `title` extends `Replayed` by its
      `setAlarm` when its value is a Long, and by nothing otherwise. */
  lemma ReplayStep(ledger: map<string, LedgerVal>, done: set<string>, title: string,
                   regs0: map<int, Alarm>, regs: map<int, Alarm>)
    requires title in ledger && title !in done
    requires Replayed(ledger, done, regs0, regs)
    ensures ledger[title].LongV? ==>
      Replayed(ledger, done + {title}, regs0, regs[HashCode(title) := Alarm(ledger[title].millis, title)])
    ensures !ledger[title].LongV? ==> Replayed(ledger, done + {title}, regs0, regs)
  {
    if ledger[title].LongV? {
      var h, a := HashCode(title), Alarm(ledger[title].millis, title);
      var codes0 := Codes(LongKeysIn(ledger, done));
      assert LongKeysIn(ledger, done + {title}) == LongKeysIn(ledger, done) + {title};
      CodesAdd(LongKeysIn(ledger, done), title);
      var regs1 := regs[h := a];
      assert FromLedger(ledger, h, a);
      forall c | c in codes0 + {h} ensures FromLedger(ledger, c, regs1[c]) {
        if c != h { assert regs1[c] == regs[c]; }
      }
    } else {
      assert LongKeysIn(ledger, done + {title}) == LongKeysIn(ledger, done);
    }
  }

  /** The registrations after `setAlarm` for the entry `title`, if it is a Long. */
  function ReplayEntry(ledger: map<string, LedgerVal>, title: string, regs: map<int, Alarm>): (r: map<int, Alarm>)
    requires title in ledger
    ensures ledger[title].LongV? ==> r == regs[HashCode(title) := Alarm(ledger[title].millis, title)]
    ensures !ledger[title].LongV? ==> r == regs
  {
    match ledger[title]
    case LongV(millis) => regs[HashCode(title) := Alarm(millis, title)]
    case _ => regs
  }

  /** The registrations after the `forEach` of `onReceive` visits the keys in
      the order `order`, one `setAlarm` per Long entry. */
  function ReplayInOrder(ledger: map<string, LedgerVal>, order: seq<string>, regs: map<int, Alarm>): (r: map<int, Alarm>)
    requires forall i | 0 <= i < |order| :: order[i] in ledger
    ensures regs.Keys <= r.Keys
    ensures forall i | 0 <= i < |order| && ledger[order[i]].LongV? :: HashCode(order[i]) in r
    ensures forall c | c in r :: (c in regs && r[c] == regs[c]) || FromLedger(ledger, c, r[c])
    decreases |order|
  {
    if order == [] then regs
    else
      assert forall i | 0 <= i < |order| - 1 :: order[1..][i] == order[i + 1];
      ReplayInOrder(ledger, order[1..], ReplayEntry(ledger, order[0], regs))
  }

  function Elems(order: seq<string>): set<string> {
    set i | 0 <= i < |order| :: order[i]
  }

  /** Replaying in any one order is one of the outcomes `Replayed` allows. */
  lemma {:induction false} ReplayInOrderIsReplayed(ledger: map<string, LedgerVal>, order: seq<string>, done: set<string>,
                                                   regs0: map<int, Alarm>, regs: map<int, Alarm>)
    requires Distinct(order) && forall i | 0 <= i < |order| :: order[i] in ledger && order[i] !in done
    requires Replayed(ledger, done, regs0, regs)
    ensures Replayed(ledger, done + Elems(order), regs0, ReplayInOrder(ledger, order, regs))
    decreases |order|
  {
    if order == [] {
      assert done + Elems(order) == done;
    } else {
      var title, rest := order[0], order[1..];
      assert forall i | 0 <= i < |rest| :: rest[i] == order[i + 1];
      assert Elems(order) == {title} + Elems(rest);
      ReplayStep(ledger, done, title, regs0, regs);
      ReplayInOrderIsReplayed(ledger, rest, done + {title}, regs0, ReplayEntry(ledger, title, regs));
      assert done + {title} + Elems(rest) == done + Elems(order);
    }
  }

  /** A replay over an iteration order of the whole ledger is one of the
      outcomes `Replayed` allows for the whole ledger. */
  lemma ReplayOfLedgerIsReplayed(ledger: map<string, LedgerVal>, order: seq<string>, regs: map<int, Alarm>)
    requires Enumerates(order, ledger)
    ensures Replayed(ledger, ledger.Keys, regs, ReplayInOrder(ledger, order, regs))
  {
    assert Replayed(ledger, {}, regs, regs) by {
      assert LongKeysIn(ledger, {}) == {};
    }
    ReplayInOrderIsReplayed(ledger, order, {}, regs, regs);
    assert {} + Elems(order) == ledger.Keys;
  }

  /** What a replay registers does not depend on what was there before: it
      overrides `base` with what it registers over `regs`. */
  lemma {:induction false} ReplayInOrderOverrides(ledger: map<string, LedgerVal>, order: seq<string>,
                                                  base: map<int, Alarm>, regs: map<int, Alarm>)
    requires forall i | 0 <= i < |order| :: order[i] in ledger
    ensures ReplayInOrder(ledger, order, base + regs) == base + ReplayInOrder(ledger, order, regs)
    decreases |order|
  {
    if order != [] {
      var title := order[0];
      assert forall i | 0 <= i < |order| - 1 :: order[1..][i] == order[i + 1];
      if ledger[title].LongV? {
        var h, a := HashCode(title), Alarm(ledger[title].millis, title);
        assert (base + regs)[h := a] == base + regs[h := a];
      }
      ReplayInOrderOverrides(ledger, order[1..], base, ReplayEntry(ledger, title, regs));
    }
  }

  /** Running the replay twice in the same order equals running it once,
      hash collisions included: the second run registers the same last title
      for every code. */
  lemma ReplayIdempotent(ledger: map<string, LedgerVal>, order: seq<string>, regs: map<int, Alarm>)
    requires forall i | 0 <= i < |order| :: order[i] in ledger
    ensures ReplayInOrder(ledger, order, ReplayInOrder(ledger, order, regs)) == ReplayInOrder(ledger, order, regs)
  {
    var own := ReplayInOrder(ledger, order, map[]);
    OverrideLaws(regs, own);
    ReplayInOrderOverrides(ledger, order, regs, map[]);
    OverrideLaws(regs + own, own);
    ReplayInOrderOverrides(ledger, order, regs + own, map[]);
  }

  lemma OverrideLaws(base: map<int, Alarm>, own: map<int, Alarm>)
    ensures base + map[] == base
    ensures (base + own) + own == base + own
  {
  }

  /** `onReceive`: on BOOT_COMPLETED, `setAlarm` for every Long entry in the
      order `sharedPreferences.all` is walked; on any other action nothing.
      The ledger ends as it was. */
  method OnReceive(context: AlarmContext, action: string, order: seq<string>)
    requires Enumerates(order, context.ledger)
    requires context.Valid()
    modifies context
    ensures context.Valid()
    ensures context.ledger == old(context.ledger)
    ensures action == ACTION_BOOT_COMPLETED ==>
      context.registrations == ReplayInOrder(old(context.ledger), order, old(context.registrations))
      && Replayed(old(context.ledger), old(context.ledger).Keys, old(context.registrations), context.registrations)
    ensures action != ACTION_BOOT_COMPLETED ==> context.registrations == old(context.registrations)
  {
    if action == ACTION_BOOT_COMPLETED {
      var alarmEntries := context.ledger;
      var i := 0;
      while i < |order|
        invariant 0 <= i <= |order|
        invariant context.ledger == alarmEntries && context.Valid()
        invariant ReplayInOrder(alarmEntries, order[i..], context.registrations)
                  == ReplayInOrder(alarmEntries, order, old(context.registrations))
      {
        var title := order[i];
        ghost var before := context.registrations;
        ReplayInOrderStep(alarmEntries, order, i, before);
        if alarmEntries[title].LongV? {
          SetAlarm(context, alarmEntries[title].millis, title);
          assert context.ledger == alarmEntries;
        }
        assert context.registrations == ReplayEntry(alarmEntries, title, before);
        i := i + 1;
      }
      assert order[i..] == [];
      ReplayOfLedgerIsReplayed(alarmEntries, order, old(context.registrations));
    }
  }

  /** The fold visits `order[i]` first, then the rest of the suffix. */
  lemma ReplayInOrderStep(ledger: map<string, LedgerVal>, order: seq<string>, i: nat, regs: map<int, Alarm>)
    requires i < |order| && forall j | 0 <= j < |order| :: order[j] in ledger
    ensures ReplayInOrder(ledger, order[i..], regs)
            == ReplayInOrder(ledger, order[i + 1..], ReplayEntry(ledger, order[i], regs))
  {
    assert order[i..][1..] == order[i + 1..];
  }

  /** Hash collisions merge: there are no more request codes than titles. */
  lemma {:induction false} CodesBound(titles: set<string>)
    ensures |Codes(titles)| <= |titles|
    decreases |titles|
  {
    if titles != {} {
      var k :| k in titles;
      var rest := titles - {k};
      assert titles == rest + {k};
      CodesAdd(rest, k);
      CodesBound(rest);
    }
  }

  /** Replaying onto an empty alarm manager registers at most one alarm per Long entry. */
  lemma ReplayRegistrationBound(ledger: map<string, LedgerVal>, regs: map<int, Alarm>)
    requires Replayed(ledger, ledger.Keys, map[], regs)
    ensures |regs| <= |LongKeys(ledger)|
  {
    CodesBound(LongKeys(ledger));
    assert regs.Keys == Codes(LongKeys(ledger));
  }

  /** The replay registers every alarm under its own title's code, so it
      keeps the registrations well keyed. */
  lemma ReplayKeepsWellKeyed(ledger: map<string, LedgerVal>, keys: set<string>,
                             regs0: map<int, Alarm>, regs: map<int, Alarm>)
    requires WellKeyed(regs0)
    requires Replayed(ledger, keys, regs0, regs)
    ensures WellKeyed(regs)
  {
    var codes := Codes(LongKeysIn(ledger, keys));
    forall c | c in regs ensures HashCode(regs[c].itemTitle) == c {
      if c in codes {
        assert FromLedger(ledger, c, regs[c]);
      } else {
        assert c in regs0 && regs[c] == regs0[c];
      }
    }
  }

  /** A reminder scheduled for `itemTitle` whose code no other Long entry
      shares comes back after a reboot exactly as scheduled, and as its
      title's only registration. */
  lemma ScheduledReminderRestored(ledger: map<string, LedgerVal>, itemTitle: string, triggerAtMillis: int,
                                  regs0: map<int, Alarm>, regs: map<int, Alarm>)
    requires var l := LedgerAfterSet(ledger, itemTitle, triggerAtMillis);
      forall k | k in LongKeys(l) && HashCode(k) == HashCode(itemTitle) :: k == itemTitle
    requires WellKeyed(regs0)
    requires var l := LedgerAfterSet(ledger, itemTitle, triggerAtMillis);
      Replayed(l, l.Keys, regs0, regs)
    ensures HashCode(itemTitle) in regs && regs[HashCode(itemTitle)] == Alarm(triggerAtMillis, itemTitle)
    ensures forall c | c in regs && regs[c].itemTitle == itemTitle :: c == HashCode(itemTitle)
  {
    var l := LedgerAfterSet(ledger, itemTitle, triggerAtMillis);
    ReplayKeepsWellKeyed(l, l.Keys, regs0, regs);
    assert itemTitle in LongKeys(l);
    assert HashCode(itemTitle) in Codes(LongKeys(l));
    assert regs[HashCode(itemTitle)].itemTitle in LongKeys(l);
  }

  /** As written, deleting a reminder does not survive a reboot: for a title
      that is not a numeral, the ledger keeps it and the replay registers its
      reminder again, exactly as it was scheduled, when no other Long entry
      shares its code. */
  lemma DeletedReminderRestored(ledger: map<string, LedgerVal>, itemTitle: string, triggerAtMillis: int,
                                regs0: map<int, Alarm>, regs: map<int, Alarm>)
    requires !IsNumeral(itemTitle)
    requires var l := LedgerAfterCancel(LedgerAfterSet(ledger, itemTitle, triggerAtMillis), HashCode(itemTitle));
      forall k | k in LongKeys(l) && HashCode(k) == HashCode(itemTitle) :: k == itemTitle
    requires var l := LedgerAfterCancel(LedgerAfterSet(ledger, itemTitle, triggerAtMillis), HashCode(itemTitle));
      Replayed(l, l.Keys, regs0, regs)
    ensures HashCode(itemTitle) in regs && regs[HashCode(itemTitle)] == Alarm(triggerAtMillis, itemTitle)
  {
    var l := LedgerAfterCancel(LedgerAfterSet(ledger, itemTitle, triggerAtMillis), HashCode(itemTitle));
    CancelKeepsTitleEntry(ledger, itemTitle, triggerAtMillis);
    assert itemTitle in LongKeys(l);
    assert HashCode(itemTitle) in Codes(LongKeys(l));
    assert regs[HashCode(itemTitle)].itemTitle in LongKeys(l);
  }

  /** With cancellation keyed by title, a cancelled reminder stays cancelled:
      no registration restored at boot carries its title. */
  lemma CancelledReminderStaysCancelled(ledger: map<string, LedgerVal>, registrations: map<int, Alarm>,
                                        itemTitle: string, triggerAtMillis: int, regs: map<int, Alarm>)
    requires WellKeyed(registrations)
    requires var l := LedgerAfterCancelReminder(LedgerAfterSet(ledger, itemTitle, triggerAtMillis), itemTitle);
      var h := HashCode(itemTitle);
      Replayed(l, l.Keys, registrations[h := Alarm(triggerAtMillis, itemTitle)] - {h}, regs)
    ensures forall c | c in regs :: regs[c].itemTitle != itemTitle
  {
    var h := HashCode(itemTitle);
    var regs0 := registrations[h := Alarm(triggerAtMillis, itemTitle)] - {h};
    assert forall c | c in regs0 :: regs0[c] == registrations[c] && c != h;
  }
}
