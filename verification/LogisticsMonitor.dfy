/** The expiry monitor of logistics/services.py against what it is for. */
module LogisticsMonitor {
  import opened Common
  import opened LogisticsModel

  // ---------------------------------------------------------------- events

  lemma DueKeysExact(c: Company, today: int, key: EventKey)
    ensures key in DueKeys(c, today) <==> Due(c, today, key)
  {
    match key
    case DocumentEvent(i, alert) =>
    case AssetEvent(field, asset, expiry, alert) =>
      AssetKeysExact(c, today, InsuranceExpiry, |c.vehicles|, key);
      AssetKeysExact(c, today, RoadworthinessExpiry, |c.vehicles|, key);
      AssetKeysExact(c, today, LicenceExpiry, |c.drivers|, key);
      AssetKeysExact(c, today, MedicalExpiry, |c.drivers|, key);
  }

  lemma AssetKeysExact(c: Company, today: int, field: Field, n: nat, key: EventKey)
    requires key.AssetEvent?
    ensures key in AssetKeys(c, today, field, n) <==> key.field == field && key.asset < n && Due(c, today, key)
  {
  }

  // ---------------------------------------------------------------- restrictions

  /** What a restriction raised by the monitor looks like. */
  ghost predicate RaisedFor(documents: seq<Document>, r: Restriction, today: int) {
    && r.document.Some? && r.document.value < |documents| && Restricts(documents[r.document.value], today)
    && r == Restriction(documents[r.document.value].scope, r.document, None, true, false)
  }

  lemma ActiveAppended(restrictions: seq<Restriction>, r: Restriction, i: nat)
    ensures ActiveAutomatic(restrictions + [r], i)
      <==> ActiveAutomatic(restrictions, i) || (r.document == Some(i) && r.automatic && !r.resolved)
  {
    if ActiveAutomatic(restrictions, i) {
      var x :| x in restrictions && x.document == Some(i) && x.automatic && !x.resolved;
      assert x in restrictions + [r];
    }
    assert r in restrictions + [r];
  }

  /**
   * After a run exactly the documents that had an active automatic restriction or
   * are expired, current and scoped have one; nothing else is added.
   */
  lemma {:induction false} GuardedExact(documents: seq<Document>, restrictions: seq<Restriction>, today: int, n: nat)
    requires n <= |documents|
    ensures var after := Guarded(documents, restrictions, today, n);
      && restrictions <= after
      && (forall k | |restrictions| <= k < |after| ::
           RaisedFor(documents, after[k], today) && after[k].document.value >= n)
      && (forall i: nat :: ActiveAutomatic(after, i)
            <==> ActiveAutomatic(restrictions, i) || (n <= i < |documents| && Restricts(documents[i], today)))
    decreases |documents| - n
  {
    if n < |documents| {
      var so := Guarded(documents, restrictions, today, n + 1);
      GuardedExact(documents, restrictions, today, n + 1);
      var added := Restriction(documents[n].scope, Some(n), None, true, false);
      forall i: nat
        ensures ActiveAutomatic(so + [added], i) <==> ActiveAutomatic(so, i) || i == n
      {
        ActiveAppended(so, added, i);
      }
    }
  }

  /** Each document is given at most one new restriction, and only if it had no active one. */
  lemma {:induction false} GuardedOnce(documents: seq<Document>, restrictions: seq<Restriction>, today: int, n: nat)
    requires n <= |documents|
    ensures var after := Guarded(documents, restrictions, today, n);
      && restrictions <= after
      && (forall k | |restrictions| <= k < |after| ::
           after[k].document.Some? && !ActiveAutomatic(restrictions, after[k].document.value))
      && (forall a, b | |restrictions| <= a < b < |after| :: after[a].document != after[b].document)
    decreases |documents| - n
  {
    if n < |documents| {
      GuardedOnce(documents, restrictions, today, n + 1);
      GuardedExact(documents, restrictions, today, n + 1);
    }
  }

  /** A run with nothing left to restrict adds nothing. */
  lemma {:induction false} GuardedIdle(documents: seq<Document>, restrictions: seq<Restriction>, today: int, n: nat)
    requires n <= |documents|
    requires forall i | n <= i < |documents| :: Restricts(documents[i], today) ==> ActiveAutomatic(restrictions, i)
    ensures Guarded(documents, restrictions, today, n) == restrictions
    decreases |documents| - n
  {
    if n < |documents| {
      GuardedIdle(documents, restrictions, today, n + 1);
    }
  }

  // ---------------------------------------------------------------- the declarative specification

  /**
   * A monitoring run leaves exactly the old events and those due, adds to the restrictions
   * exactly one for each expired, current, scoped document that has no active automatic one,
   * and changes nothing else.
   */
  lemma MonitorIsDeclarative(c: Company, today: int)
    requires Monitored(c.status)
    ensures var c' := Monitor(c, today);
      && c' == c.(events := c'.events, restrictions := c'.restrictions)
      && (forall key :: key in c'.events <==> key in c.events || Due(c, today, key))
      && c.restrictions <= c'.restrictions
      && (forall k | |c.restrictions| <= k < |c'.restrictions| ::
            RaisedFor(c.documents, c'.restrictions[k], today)
              && !ActiveAutomatic(c.restrictions, c'.restrictions[k].document.value))
      && (forall a, b | |c.restrictions| <= a < b < |c'.restrictions| ::
           c'.restrictions[a].document != c'.restrictions[b].document)
      && (forall i: nat :: ActiveAutomatic(c'.restrictions, i)
            <==> ActiveAutomatic(c.restrictions, i) || (i < |c.documents| && Restricts(c.documents[i], today)))
  {
    GuardedExact(c.documents, c.restrictions, today, 0);
    GuardedOnce(c.documents, c.restrictions, today, 0);
    forall key: EventKey
      ensures key in DueKeys(c, today) <==> Due(c, today, key)
    {
      DueKeysExact(c, today, key);
    }
  }

  /** A second run on the same day changes nothing. */
  lemma MonitorTwice(c: Company, today: int)
    ensures Monitor(Monitor(c, today), today) == Monitor(c, today)
  {
    if Monitored(c.status) {
      var c' := Monitor(c, today);
      GuardedExact(c.documents, c.restrictions, today, 0);
      GuardedIdle(c.documents, c'.restrictions, today, 0);
      assert DueKeys(c', today) == DueKeys(c, today) by {
        forall key: EventKey
          ensures key in DueKeys(c', today) <==> key in DueKeys(c, today)
        {
          DueKeysExact(c, today, key);
          DueKeysExact(c', today, key);
        }
      }
      assert c'.events + DueKeys(c', today) == c'.events;
    }
  }
}
