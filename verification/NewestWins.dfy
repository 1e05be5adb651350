// One network table on its own, replayed over a log of events beside the raw
// records that guard it: when its live rows depend only on which events
// arrived, and when they depend on the order.
module NewestWins {
  import opened Options
  import opened FederationTables

  ghost predicate DistinctIds(events: set<Event>) {
    forall a, b | a in events && b in events && a.id == b.id :: a == b
  }

  ghost function Events(log: seq<Event>): set<Event> { set e | e in log }

  // A log whose events are all different and share no id.
  ghost predicate IsLog(log: seq<Event>) {
    DistinctIds(Events(log)) && |Events(log)| == |log|
  }

  ghost predicate Newest(events: set<Event>, e: Event) {
    e in events && forall x | x in events && x.uri == e.uri :: x.id <= e.id
  }

  lemma LogGrows(log: seq<Event>, e: Event)
    ensures Events(log + [e]) == Events(log) + {e}
  {
  }

  lemma LogSize(log: seq<Event>)
    ensures |Events(log)| <= |log|
  {
    if log != [] {
      var last := |log| - 1;
      LogSize(log[..last]);
      assert log == log[..last] + [log[last]];
      LogGrows(log[..last], log[last]);
    }
  }

  lemma LogShrinks(log: seq<Event>)
    requires IsLog(log) && log != []
    ensures IsLog(log[..|log| - 1]) && log[|log| - 1] !in Events(log[..|log| - 1])
    ensures Events(log) == Events(log[..|log| - 1]) + {log[|log| - 1]}
  {
    var last := |log| - 1;
    assert log == log[..last] + [log[last]];
    LogGrows(log[..last], log[last]);
    LogSize(log[..last]);
  }

  // --- Tables written without a look at the raw records ------------------------

  function OwnAfter<K, V>(rows: map<K, Row<V>>, e: Event, key: Option<K>, value: V, absent: V): map<K, Row<V>> {
    if key.None? then rows
    else if e.change.Put? then Upsert(rows, key.value, value, e.id)
    else Bury(rows, key.value, absent, e.id)
  }

  function OwnReplay<K, V>(log: seq<Event>, key: Event -> Option<K>, value: Event -> V, absent: V): map<K, Row<V>> {
    if log == [] then map[]
    else
      var e := log[|log| - 1];
      OwnAfter(OwnReplay(log[..|log| - 1], key, value, absent), e, key(e), value(e), absent)
  }

  // Every event left a row that is at least as new, and every row was left by
  // one of the events.
  ghost predicate OwnReflects<K, V>(rows: map<K, Row<V>>, events: set<Event>, key: Event -> Option<K>, value: Event -> V) {
    && (forall x | x in events && key(x).Some? :: OwnRow(rows, x, key(x).value, value(x)))
    && (forall k | k in rows :: LeftBy(events, key, k, rows[k].eventId))
  }

  ghost predicate OwnRow<K, V>(rows: map<K, Row<V>>, x: Event, k: K, value: V) {
    && k in rows && x.id <= rows[k].eventId
    && (x.id == rows[k].eventId ==> rows[k].live == x.change.Put? && (rows[k].live ==> rows[k].value == value))
  }

  ghost predicate LeftBy<K>(events: set<Event>, key: Event -> Option<K>, k: K, id: int) {
    exists x | x in events :: key(x) == Some(k) && x.id == id
  }

  lemma OwnRowsStay<K, V>(
    rows: map<K, Row<V>>, events: set<Event>, e: Event, key: Event -> Option<K>, value: Event -> V, absent: V, x: Event)
    requires OwnReflects(rows, events, key, value) && DistinctIds(events + {e}) && e !in events
    requires x in events + {e} && key(x).Some?
    ensures OwnRow(OwnAfter(rows, e, key(e), value(e), absent), x, key(x).value, value(x))
  {
    if x != e {
      assert OwnRow(rows, x, key(x).value, value(x));
    } else if key(e).value in rows {
      var y :| y in events && key(y) == key(e) && y.id == rows[key(e).value].eventId;
      assert y in events + {e};
    }
  }

  lemma OwnRowsComeFrom<K, V>(
    rows: map<K, Row<V>>, events: set<Event>, e: Event, key: Event -> Option<K>, value: Event -> V, absent: V, k: K)
    requires OwnReflects(rows, events, key, value) && k in OwnAfter(rows, e, key(e), value(e), absent)
    ensures LeftBy(events + {e}, key, k, OwnAfter(rows, e, key(e), value(e), absent)[k].eventId)
  {
    if k in rows {
      var x :| x in events && key(x) == Some(k) && x.id == rows[k].eventId;
      assert x in events + {e};
    }
    assert e in events + {e};
  }

  lemma {:induction false} OwnReplayReflects<K, V>(log: seq<Event>, key: Event -> Option<K>, value: Event -> V, absent: V)
    requires IsLog(log)
    ensures OwnReflects(OwnReplay(log, key, value, absent), Events(log), key, value)
  {
    if log != [] {
      LogShrinks(log);
      var before, e := log[..|log| - 1], log[|log| - 1];
      OwnReplayReflects(before, key, value, absent);
      var rows := OwnReplay(before, key, value, absent);
      forall x | x in Events(log) && key(x).Some? ensures OwnRow(OwnReplay(log, key, value, absent), x, key(x).value, value(x)) {
        OwnRowsStay(rows, Events(before), e, key, value, absent, x);
      }
      forall k | k in OwnReplay(log, key, value, absent)
        ensures LeftBy(Events(log), key, k, OwnReplay(log, key, value, absent)[k].eventId)
      {
        OwnRowsComeFrom(rows, Events(before), e, key, value, absent, k);
      }
    }
  }

  // What a reader sees under a key.
  function LiveRow<K, V>(rows: map<K, Row<V>>, k: K): Option<Row<V>> {
    if Live(rows, k) then Some(rows[k]) else None
  }

  lemma OwnKeys<K, V>(rows: map<K, Row<V>>, events: set<Event>, key: Event -> Option<K>, value: Event -> V, k: K)
    requires OwnReflects(rows, events, key, value)
    ensures k in rows <==> exists x | x in events :: key(x) == Some(k)
  {
    if x :| x in events && key(x) == Some(k) {
      assert OwnRow(rows, x, k, value(x));
    }
  }

  // The newest event under a key decides whether there is a live row and what
  // it holds, so replicas of the same events agree.
  lemma OwnRowsAgree<K, V>(
    a: map<K, Row<V>>, b: map<K, Row<V>>, events: set<Event>, key: Event -> Option<K>, value: Event -> V, k: K)
    requires OwnReflects(a, events, key, value) && OwnReflects(b, events, key, value) && DistinctIds(events)
    ensures LiveRow(a, k) == LiveRow(b, k) && (k in a <==> k in b)
    ensures k in a ==> a[k].eventId == b[k].eventId && a[k].live == b[k].live
  {
    OwnKeys(a, events, key, value, k);
    OwnKeys(b, events, key, value, k);
    if k in a {
      var x :| x in events && key(x) == Some(k) && x.id == a[k].eventId;
      var y :| y in events && key(y) == Some(k) && y.id == b[k].eventId;
      assert OwnRow(a, y, k, value(y)) && OwnRow(b, x, k, value(x)) && OwnRow(a, x, k, value(x));
    }
  }

  // --- Tables guarded by the raw records ---------------------------------------

  // One write to a guarded table: the event must now be the raw record, and a
  // row that exists must already hold the incoming value's fixed fields.
  function GuardedAfter<V, F(==)>(
    rows: map<Uri, Row<V>>, records: map<Uri, Row<()>>, e: Event, value: Option<V>, fixed: V -> F): map<Uri, Row<V>>
  {
    if !Current(records, e) || !Fresh(rows, e.uri, e.id) then rows
    else if value.Some? then
      if e.uri in rows ==> fixed(rows[e.uri].value) == fixed(value.value)
      then rows[e.uri := Row(value.value, true, e.id)] else rows
    else if e.change.Delete? && e.uri in rows then Kill(rows, e.uri, e.id)
    else rows
  }

  function RecordsReplay(log: seq<Event>): map<Uri, Row<()>> {
    if log == [] then map[] else RecordsAfter(RecordsReplay(log[..|log| - 1]), log[|log| - 1])
  }

  function GuardedReplay<V, F(==)>(log: seq<Event>, value: Event -> Option<V>, fixed: V -> F): map<Uri, Row<V>> {
    if log == [] then map[]
    else
      var before, e := log[..|log| - 1], log[|log| - 1];
      GuardedAfter(GuardedReplay(before, value, fixed), RecordsReplay(before), e, value(e), fixed)
  }

  // The event is the newest under its URI, as far as the records say.
  predicate Leads(records: map<Uri, Row<()>>, x: Event) {
    x.uri in records && x.id == records[x.uri].eventId
  }

  // Every version of the same URI holds the same fixed fields as `x`.
  ghost predicate AgreesWith<V, F>(events: set<Event>, x: Event, value: Event -> Option<V>, fixed: V -> F) {
    value(x).Some? &&
    forall y | y in events && y.uri == x.uri && value(y).Some? :: fixed(value(y).value) == fixed(value(x).value)
  }

  // The row of a URI whose versions agree is its newest version, and the row
  // of a deleted URI is not live.
  ghost predicate Shown<V, F>(
    rows: map<Uri, Row<V>>, records: map<Uri, Row<()>>, events: set<Event>, value: Event -> Option<V>, fixed: V -> F, x: Event)
    requires x in events
  {
    Leads(records, x) ==>
      && (AgreesWith(events, x, value, fixed) ==> x.uri in rows && rows[x.uri] == Row(value(x).value, true, x.id))
      && (value(x).None? ==> !Live(rows, x.uri))
  }

  ghost predicate Backed<V>(
    rows: map<Uri, Row<V>>, records: map<Uri, Row<()>>, events: set<Event>, value: Event -> Option<V>, u: Uri)
    requires u in rows
  {
    && u in records && rows[u].eventId <= records[u].eventId
    && exists x | x in events :: x.uri == u && value(x) == Some(rows[u].value)
  }

  ghost predicate GuardedReflects<V, F>(
    rows: map<Uri, Row<V>>, records: map<Uri, Row<()>>, events: set<Event>, value: Event -> Option<V>, fixed: V -> F)
  {
    && (forall x | x in events :: Shown(rows, records, events, value, fixed, x))
    && (forall u | u in rows :: Backed(rows, records, events, value, u))
  }

  // Only a put carries a value, and all values under one URI or none do.
  ghost predicate Typed<V>(value: Event -> Option<V>, events: set<Event>) {
    && (forall x | x in events && value(x).Some? :: x.change.Put?)
    && (forall x, y | x in events && y in events && x.uri == y.uri && value(x).Some? && y.change.Put? :: value(y).Some?)
  }

  function Anything(e: Event): Option<Uri> { Some(e.uri) }
  function Nothing(e: Event): () { () }

  lemma {:induction false} RecordsAreOwn(log: seq<Event>)
    ensures RecordsReplay(log) == OwnReplay(log, Anything, Nothing, ())
  {
    if log != [] {
      RecordsAreOwn(log[..|log| - 1]);
    }
  }

  lemma RecordsReflect(log: seq<Event>)
    requires IsLog(log)
    ensures OwnReflects(RecordsReplay(log), Events(log), Anything, Nothing)
  {
    RecordsAreOwn(log);
    OwnReplayReflects(log, Anything, Nothing, ());
  }

  // An event becomes the raw record exactly when it is newer than every event
  // before it.
  lemma CurrentIsNewest(records: map<Uri, Row<()>>, events: set<Event>, e: Event)
    requires OwnReflects(records, events, Anything, Nothing) && DistinctIds(events + {e}) && e !in events
    ensures Current(records, e) <==> Newest(events + {e}, e)
    ensures Current(records, e) <==> Leads(RecordsAfter(records, e), e)
    ensures Current(records, e) <==> Fresh(records, e.uri, e.id)
    ensures !Current(records, e) ==> RecordsAfter(records, e) == records
  {
    if Fresh(records, e.uri, e.id) {
      forall x | x in events && x.uri == e.uri ensures x.id <= e.id {
        assert OwnRow(records, x, x.uri, ());
      }
    } else {
      var x :| x in events && Anything(x) == Some(e.uri) && x.id == records[e.uri].eventId;
      assert x in events + {e} && e in events + {e};
    }
  }

  lemma BackedStays<V, F>(
    rows: map<Uri, Row<V>>, records: map<Uri, Row<()>>, events: set<Event>, e: Event, value: Event -> Option<V>, fixed: V -> F, u: Uri)
    requires forall w | w in rows :: Backed(rows, records, events, value, w)
    requires u in GuardedAfter(rows, records, e, value(e), fixed)
    ensures Backed(GuardedAfter(rows, records, e, value(e), fixed), RecordsAfter(records, e), events + {e}, value, u)
  {
    assert e in events + {e};
    if u in rows {
      var x :| x in events && x.uri == u && value(x) == Some(rows[u].value);
      assert x in events + {e};
    }
  }

  // An older event changes nothing.
  lemma ShownStays<V, F>(
    rows: map<Uri, Row<V>>, records: map<Uri, Row<()>>, events: set<Event>, e: Event, value: Event -> Option<V>, fixed: V -> F, x: Event)
    requires x in events && x != e && Shown(rows, records, events, value, fixed, x)
    requires DistinctIds(events + {e})
    requires Leads(RecordsAfter(records, e), x)
    ensures Shown(GuardedAfter(rows, records, e, value(e), fixed), RecordsAfter(records, e), events + {e}, value, fixed, x)
  {
    assert x in events + {e} && e in events + {e};
    assert x.id != e.id;
    if e.uri == x.uri {
      assert !Current(records, e);
    }
    assert Leads(records, x);
    if AgreesWith(events + {e}, x, value, fixed) {
      assert AgreesWith(events, x, value, fixed);
    }
  }

  lemma NewestShown<V, F>(
    rows: map<Uri, Row<V>>, records: map<Uri, Row<()>>, events: set<Event>, e: Event, value: Event -> Option<V>, fixed: V -> F)
    requires forall u | u in rows :: Backed(rows, records, events, value, u)
    requires Typed(value, events + {e}) && Leads(RecordsAfter(records, e), e)
    requires Current(records, e) && Fresh(records, e.uri, e.id)
    ensures Shown(GuardedAfter(rows, records, e, value(e), fixed), RecordsAfter(records, e), events + {e}, value, fixed, e)
  {
    assert e in events + {e};
    if e.uri in rows {
      assert Backed(rows, records, events, value, e.uri);
      var x :| x in events && x.uri == e.uri && value(x) == Some(rows[e.uri].value);
      assert x in events + {e};
    }
  }

  lemma {:induction false} GuardedReplayReflects<V, F>(log: seq<Event>, value: Event -> Option<V>, fixed: V -> F)
    requires IsLog(log) && Typed(value, Events(log))
    ensures GuardedReflects(GuardedReplay(log, value, fixed), RecordsReplay(log), Events(log), value, fixed)
  {
    if log != [] {
      LogShrinks(log);
      var before, e := log[..|log| - 1], log[|log| - 1];
      GuardedReplayReflects(before, value, fixed);
      RecordsReflect(before);
      GuardedStepReflects(GuardedReplay(before, value, fixed), RecordsReplay(before), Events(before), e, value, fixed);
    }
  }

  lemma GuardedStepReflects<V, F>(
    rows: map<Uri, Row<V>>, records: map<Uri, Row<()>>, events: set<Event>, e: Event, value: Event -> Option<V>, fixed: V -> F)
    requires DistinctIds(events + {e}) && e !in events && Typed(value, events + {e})
    requires OwnReflects(records, events, Anything, Nothing)
    requires GuardedReflects(rows, records, events, value, fixed)
    ensures GuardedReflects(GuardedAfter(rows, records, e, value(e), fixed), RecordsAfter(records, e), events + {e}, value, fixed)
  {
    var rows', records' := GuardedAfter(rows, records, e, value(e), fixed), RecordsAfter(records, e);
    forall u | u in rows' ensures Backed(rows', records', events + {e}, value, u) {
      BackedStays(rows, records, events, e, value, fixed, u);
    }
    CurrentIsNewest(records, events, e);
    forall x | x in events + {e} ensures Shown(rows', records', events + {e}, value, fixed, x) {
      if x != e && Leads(records', x) {
        ShownStays(rows, records, events, e, value, fixed, x);
      } else if x == e && Leads(records', e) {
        NewestShown(rows, records, events, e, value, fixed);
      }
    }
  }

  // --- When the order of events matters ----------------------------------------

  // If the newest event under `u` is a version, every other version agrees with
  // its fixed fields.
  ghost predicate Settled<V, F>(events: set<Event>, u: Uri, value: Event -> Option<V>, fixed: V -> F) {
    forall x | Newest(events, x) && x.uri == u && value(x).Some? :: AgreesWith(events, x, value, fixed)
  }

  // Any two replays of the same events agree on every settled URI.
  lemma GuardedRowsAgree<V, F>(p: seq<Event>, q: seq<Event>, u: Uri, value: Event -> Option<V>, fixed: V -> F)
    requires IsLog(p) && IsLog(q) && Events(p) == Events(q) && Typed(value, Events(p))
    requires Settled(Events(p), u, value, fixed)
    ensures LiveRow(GuardedReplay(p, value, fixed), u) == LiveRow(GuardedReplay(q, value, fixed), u)
  {
    GuardedRowIs(p, u, value, fixed);
    GuardedRowIs(q, u, value, fixed);
    if x, y :| Newest(Events(p), x) && Newest(Events(p), y) && x.uri == u && y.uri == u {
      assert x == y;
    }
  }

  // The settled row is the newest event's, independently of the order.
  lemma GuardedRowIs<V, F>(log: seq<Event>, u: Uri, value: Event -> Option<V>, fixed: V -> F)
    requires IsLog(log) && Typed(value, Events(log)) && Settled(Events(log), u, value, fixed)
    ensures
      var row := LiveRow(GuardedReplay(log, value, fixed), u);
      || (row == None && forall x | x in Events(log) :: x.uri != u)
      || exists x :: Newest(Events(log), x) && x.uri == u
           && row == if value(x).Some? then Some(Row(value(x).value, true, x.id)) else None
  {
    GuardedReplayReflects(log, value, fixed);
    RecordsReflect(log);
    var rows, records := GuardedReplay(log, value, fixed), RecordsReplay(log);
    OwnKeys(records, Events(log), Anything, Nothing, u);
    assert u in rows ==> Backed(rows, records, Events(log), value, u);
    if u in records {
      var x :| x in Events(log) && Anything(x) == Some(u) && x.id == records[u].eventId;
      forall y | y in Events(log) && y.uri == u ensures y.id <= x.id {
        assert OwnRow(records, y, u, ());
      }
      assert Newest(Events(log), x);
      assert Shown(rows, records, Events(log), value, fixed, x);
    }
  }

  // An event that is not the newest under its URI leaves every row.
  lemma OlderChangesNothing<V, F>(before: seq<Event>, e: Event, x: Event, value: Event -> Option<V>, fixed: V -> F)
    requires IsLog(before) && IsLog(before + [e]) && x in before && Newest(Events(before + [e]), x)
    ensures
      LiveRow(GuardedAfter(GuardedReplay(before, value, fixed), RecordsReplay(before), e, value(e), fixed), x.uri) ==
      LiveRow(GuardedReplay(before, value, fixed), x.uri)
  {
    LogShrinks(before + [e]);
    assert (before + [e])[..|before|] == before;
    RecordsReflect(before);
    CurrentIsNewest(RecordsReplay(before), Events(before), e);
    assert x in Events(before + [e]) && e in Events(before + [e]);
  }

  // A version that arrives first and is the newest keeps its row.
  lemma {:induction false} FirstNewestStays<V, F>(log: seq<Event>, value: Event -> Option<V>, fixed: V -> F)
    requires IsLog(log) && log != [] && Newest(Events(log), log[0]) && value(log[0]).Some?
    ensures LiveRow(GuardedReplay(log, value, fixed), log[0].uri) == Some(Row(value(log[0]).value, true, log[0].id))
  {
    var before, e, x := log[..|log| - 1], log[|log| - 1], log[0];
    if before == [] {
      assert GuardedReplay(before, value, fixed) == map[] && RecordsReplay(before) == map[];
    } else {
      LogShrinks(log);
      assert x == before[0] && log == before + [e];
      FirstNewestStays(before, value, fixed);
      OlderChangesNothing(before, e, x, value, fixed);
    }
  }

  // A version that arrives first fixes its fields for ever.
  lemma {:induction false} FirstFixes<V, F>(log: seq<Event>, value: Event -> Option<V>, fixed: V -> F)
    requires log != [] && value(log[0]).Some? && log[0].change.Put?
    ensures
      var rows := GuardedReplay(log, value, fixed);
      log[0].uri in rows && fixed(rows[log[0].uri].value) == fixed(value(log[0]).value)
  {
    var before := log[..|log| - 1];
    if before == [] {
      assert GuardedReplay(before, value, fixed) == map[] && RecordsReplay(before) == map[];
    } else {
      FirstFixes(before, value, fixed);
    }
  }

  // Two orders of the same events in which an unsettled URI ends differently.
  lemma UnsettledDiffers<V, F>(p: seq<Event>, q: seq<Event>, value: Event -> Option<V>, fixed: V -> F)
    requires IsLog(p) && IsLog(q) && p != [] && q != [] && p[0].uri == q[0].uri && q[0].change.Put?
    requires Newest(Events(p), p[0]) && value(p[0]).Some? && value(q[0]).Some?
    requires fixed(value(p[0]).value) != fixed(value(q[0]).value)
    ensures LiveRow(GuardedReplay(p, value, fixed), p[0].uri) != LiveRow(GuardedReplay(q, value, fixed), p[0].uri)
  {
    FirstNewestStays(p, value, fixed);
    FirstFixes(q, value, fixed);
  }
}
