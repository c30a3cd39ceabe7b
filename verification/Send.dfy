/**
 The send page (apps/web/src/pages/Send.tsx): the markers of recently spent outpoints that guard
 against a lagging indexer, the choice of coins, and the previewed against the built transaction.
 The indexer's answers and the clock are inputs; storage is assumed to work.
 */
module Send {
  import opened Wrappers
  import opened Text
  import opened Lists
  import opened TxBuilder

  const SPENT_OUTPOINT_TTL_MS: nat := 10 * 60 * 1000
  const MAX_RECENT_SPENT_OUTPOINTS: nat := 2000
  const DUST_ATOMIC: nat := 546
  const MAX_INPUTS: nat := 150
  const UTXO_RETRY_ATTEMPTS: nat := 5

  datatype LightUtxo = LightUtxo(txid: string, vout: nat, value: int, height: int)

  function OutpointKey(u: LightUtxo): string {
    u.txid + ":" + ToDecimal(u.vout)
  }

  /** Keys identify outpoints, whatever characters a txid has. */
  lemma OutpointKeyInjective(a: LightUtxo, b: LightUtxo)
    ensures OutpointKey(a) == OutpointKey(b) <==> a.txid == b.txid && a.vout == b.vout
  {
    hide ToDecimal, ToNat;
    if OutpointKey(a) == OutpointKey(b) {
      LastColon(a.txid, ToDecimal(a.vout), b.txid, ToDecimal(b.vout));
    }
  }

  /** The last colon splits a key. */
  lemma LastColon(a: string, x: string, b: string, y: string)
    requires a + ":" + x == b + ":" + y && Digits(x) && Digits(y)
    ensures a == b && x == y
  {
    var k := a + ":" + x;
    assert k[|a|] == ':' && k[|b|] == ':';
    assert forall i :: |a| < i < |k| ==> k[i] == x[i - |a| - 1];
    assert forall i :: |b| < i < |k| ==> k[i] == y[i - |b| - 1];
    assert k[..|a|] == a && k[|a| + 1..] == x && k[..|b|] == b && k[|b| + 1..] == y;
  }

  // ---------- Markers of spent outpoints ----------

  datatype Marker = Marker(key: string, expiresAt: int)

  type Store = seq<Marker>

  function Keys(store: Store): set<string> {
    set m | m in store :: m.key
  }

  function ListedKeys(utxos: seq<LightUtxo>): set<string> {
    set u | u in utxos :: OutpointKey(u)
  }

  function LiveMarkers(store: Store, now: int): Store {
    Filter(store, (m: Marker) => m.expiresAt > now)
  }

  function KeySet(keys: seq<string>): seq<string> {
    Distinct(Filter(keys, (k: string) => k != ""))
  }

  function NewMarkers(keySet: seq<string>, now: int): Store {
    seq(|keySet|, i requires 0 <= i < |keySet| => Marker(keySet[i], now + SPENT_OUTPOINT_TTL_MS))
  }

  function OtherMarkers(store: Store, keySet: seq<string>, now: int): Store {
    Filter(store, (m: Marker) => m.expiresAt > now && m.key !in keySet)
  }

  /** New markers first, then the live ones of other keys, before the list is cut to its maximum. */
  function Remarked(store: Store, keys: seq<string>, now: int): Store {
    NewMarkers(KeySet(keys), now) + OtherMarkers(store, KeySet(keys), now)
  }

  lemma KeySetMember(keys: seq<string>, k: string)
    ensures k in KeySet(keys) <==> k in keys && k != ""
  {
    FilterMember(keys, (k: string) => k != "", k);
  }

  lemma RemarkedMember(store: Store, keys: seq<string>, now: int, m: Marker)
    ensures m in Remarked(store, keys, now) <==>
            if m.key in keys && m.key != "" then m.expiresAt == now + SPENT_OUTPOINT_TTL_MS else m in store && m.expiresAt > now
  {
    var keySet := KeySet(keys);
    KeySetMember(keys, m.key);
    FilterMember(store, (m: Marker) => m.expiresAt > now && m.key !in keySet, m);
    hide KeySet;
    if m.key in keySet && m.expiresAt == now + SPENT_OUTPOINT_TTL_MS {
      var i :| 0 <= i < |keySet| && keySet[i] == m.key;
      assert NewMarkers(keySet, now)[i] == m;
    }
  }

  function AfterSave(store: Store, keys: seq<string>, now: int): Store {
    Take(Remarked(store, keys, now), MAX_RECENT_SPENT_OUTPOINTS)
  }

  function AfterLoad(store: Store, now: int): Store {
    Take(LiveMarkers(store, now), MAX_RECENT_SPENT_OUTPOINTS)
  }

  function AfterReconcile(store: Store, utxos: seq<LightUtxo>, now: int): Store {
    var available := ListedKeys(utxos);
    Filter(store, (m: Marker) => m.expiresAt > now && m.key in available)
  }

  /** Whatever touches the markers: a broadcast that succeeded, an answer of the indexer, a reload of the page. */
  datatype Event = Spent(keys: seq<string>, now: int) | Listed(utxos: seq<LightUtxo>, now: int) | Loaded(now: int)

  function Apply(store: Store, e: Event): Store {
    match e
    case Spent(keys, now) => AfterSave(store, keys, now)
    case Listed(utxos, now) => AfterReconcile(store, utxos, now)
    case Loaded(now) => AfterLoad(store, now)
  }

  function Run(store: Store, events: seq<Event>): Store {
    if events == [] then store else Apply(Run(store, events[..|events| - 1]), events[|events| - 1])
  }

  /** The maximum never cuts a live marker off during the run. */
  predicate WithinCapacity(store: Store, events: seq<Event>) {
    events == [] ||
    var last := |events| - 1;
    var before := Run(store, events[..last]);
    && WithinCapacity(store, events[..last])
    && (events[last].Spent? ==> |Remarked(before, events[last].keys, events[last].now)| <= MAX_RECENT_SPENT_OUTPOINTS)
    && (events[last].Loaded? ==> |LiveMarkers(before, events[last].now)| <= MAX_RECENT_SPENT_OUTPOINTS)
  }

  predicate During(events: seq<Event>, from: int, until: int) {
    forall i :: 0 <= i < |events| ==> from <= events[i].now <= until
  }

  /** k has a marker that is still live at `until`. */
  predicate Marked(store: Store, k: string, until: int) {
    exists i :: 0 <= i < |store| && store[i].key == k && store[i].expiresAt > until
  }

  predicate Drops(e: Event, k: string) {
    e.Listed? && k !in ListedKeys(e.utxos)
  }

  /** The indexer never lists k again once it has dropped it. */
  predicate NeverRelisted(events: seq<Event>, k: string) {
    forall i, j :: 0 <= i < j < |events| && Drops(events[i], k) && events[j].Listed? ==> Drops(events[j], k)
  }

  predicate SpentIn(events: seq<Event>, k: string) {
    exists i :: 0 <= i < |events| && events[i].Spent? && k in events[i].keys
  }

  predicate DroppedIn(events: seq<Event>, k: string) {
    exists i :: 0 <= i < |events| && Drops(events[i], k)
  }

  lemma SaveMarks(store: Store, keys: seq<string>, now: int, k: string)
    requires k in keys && k != "" && |Remarked(store, keys, now)| <= MAX_RECENT_SPENT_OUTPOINTS
    ensures forall until :: until < now + SPENT_OUTPOINT_TTL_MS ==> Marked(AfterSave(store, keys, now), k, until)
  {
    var m := Marker(k, now + SPENT_OUTPOINT_TTL_MS);
    RemarkedMember(store, keys, now, m);
    hide Remarked;
    var i :| 0 <= i < |AfterSave(store, keys, now)| && AfterSave(store, keys, now)[i] == m;
  }

  /** A marker outlives an event within its time unless the event is an answer of the indexer without k. */
  lemma StepKeepsMarker(store: Store, e: Event, k: string, until: int)
    requires Marked(store, k, until) && e.now <= until < e.now + SPENT_OUTPOINT_TTL_MS && k != "" && !Drops(e, k)
    requires WithinCapacity(store, [e])
    ensures Marked(Apply(store, e), k, until)
  {
    assert [e][..0] == [];
    var i :| 0 <= i < |store| && store[i].key == k && store[i].expiresAt > until;
    var m := store[i];
    match e {
      case Spent(keys, now) =>
        if k in keys {
          SaveMarks(store, keys, now, k);
        } else {
          RemarkedMember(store, keys, now, m);
        }
      case Listed(utxos, now) =>
        var available := ListedKeys(utxos);
        FilterMember(store, (m: Marker) => m.expiresAt > now && m.key in available, m);
      case Loaded(now) =>
        FilterMember(store, (m: Marker) => m.expiresAt > now, m);
    }
    assert m in Apply(store, e) || Marked(Apply(store, e), k, until);
  }

  lemma SaveForgets(store: Store, keys: seq<string>, now: int, k: string)
    requires k !in Keys(store) && k !in keys
    ensures k !in Keys(AfterSave(store, keys, now))
  {
    hide Remarked;
    if k in Keys(AfterSave(store, keys, now)) {
      var m :| m in AfterSave(store, keys, now) && m.key == k;
      RemarkedMember(store, keys, now, m);
    }
  }

  lemma KeptMarker(store: Store, p: Marker -> bool, m: Marker)
    requires m in Filter(store, p)
    ensures m.key in Keys(store) && p(m)
  {
    FilterMember(store, p, m);
  }

  /** An answer without k removes its marker, and no other event than a broadcast of k brings one back. */
  lemma StepForgets(store: Store, e: Event, k: string)
    requires Drops(e, k) || (k !in Keys(store) && !(e.Spent? && k in e.keys))
    ensures k !in Keys(Apply(store, e))
  {
    hide AfterSave;
    var after := Apply(store, e);
    if e.Spent? {
      SaveForgets(store, e.keys, e.now, k);
    } else if k in Keys(after) {
      var m :| m in after && m.key == k;
      if e.Listed? {
        var available := ListedKeys(e.utxos);
        KeptMarker(store, (m: Marker) => m.expiresAt > e.now && m.key in available, m);
      } else {
        KeptMarker(store, (m: Marker) => m.expiresAt > e.now, m);
      }
    }
  }

  lemma {:induction false} MarkerSurvives(store: Store, events: seq<Event>, k: string, from: int, until: int)
    requires Marked(store, k, until) && k != "" && WithinCapacity(store, events)
    requires During(events, from, until) && until < from + SPENT_OUTPOINT_TTL_MS && !DroppedIn(events, k)
    ensures Marked(Run(store, events), k, until)
  {
    if events != [] {
      var last := |events| - 1;
      MarkerSurvives(store, events[..last], k, from, until);
      var before := Run(store, events[..last]);
      assert [events[last]][..0] == [];
      StepKeepsMarker(before, events[last], k, until);
    }
  }

  lemma {:induction false} MarkerForgotten(store: Store, events: seq<Event>, k: string)
    requires DroppedIn(events, k) && !SpentIn(events, k)
    ensures k !in Keys(Run(store, events))
  {
    var last := |events| - 1;
    if !Drops(events[last], k) {
      var i :| 0 <= i < |events| && Drops(events[i], k);
      assert Drops(events[..last][i], k);
      assert SpentIn(events[..last], k) ==> SpentIn(events, k);
      MarkerForgotten(store, events[..last], k);
    }
    StepForgets(Run(store, events[..last]), events[last], k);
  }

  // ---------- Coins that may be spent ----------

  function Confirmed(u: LightUtxo): nat {
    if u.height > 0 then 1 else 0
  }

  predicate SpendFirst(a: LightUtxo, b: LightUtxo) {
    if Confirmed(a) != Confirmed(b) then Confirmed(a) > Confirmed(b) else a.value <= b.value
  }

  predicate MaySpend(u: LightUtxo, excluded: set<string>) {
    u.value > 0 && OutpointKey(u) !in excluded
  }

  /** The listed coins of positive value that are not excluded, confirmed ones first, then by value. */
  function SpendableUtxos(utxos: seq<LightUtxo>, excluded: set<string>): seq<LightUtxo> {
    SortBy(Filter(utxos, u => MaySpend(u, excluded)), SpendFirst)
  }

  lemma SpendableMember(utxos: seq<LightUtxo>, excluded: set<string>, u: LightUtxo)
    ensures u in SpendableUtxos(utxos, excluded) <==> u in utxos && u.value > 0 && OutpointKey(u) !in excluded
  {
    var kept := Filter(utxos, u => MaySpend(u, excluded));
    FilterMember(utxos, u => MaySpend(u, excluded), u);
    SortByPermutes(kept, SpendFirst);
    assert u in kept <==> u in multiset(kept);
    assert u in SpendableUtxos(utxos, excluded) <==> u in multiset(SpendableUtxos(utxos, excluded));
  }

  /** Confirmed coins are offered before unconfirmed ones, and within each kind the small ones first. */
  lemma SpendableOrder(utxos: seq<LightUtxo>, excluded: set<string>, i: nat, j: nat)
    requires i < j < |SpendableUtxos(utxos, excluded)|
    ensures var r := SpendableUtxos(utxos, excluded);
            && (r[j].height > 0 ==> r[i].height > 0)
            && ((r[i].height > 0 <==> r[j].height > 0) ==> r[i].value <= r[j].value)
  {
    SortBySorts(Filter(utxos, u => MaySpend(u, excluded)), SpendFirst);
  }

  /** After a broadcast of k at `t`, the events since then and a fresh answer: the coins the next send may use. */
  function NextSpendable(store: Store, keys: seq<string>, t: int, events: seq<Event>, utxos: seq<LightUtxo>, now: int): seq<LightUtxo> {
    SpendableUtxos(utxos, Keys(AfterReconcile(Run(AfterSave(store, keys, t), events), utxos, now)))
  }

  /** The run that follows a broadcast at `t` up to an answer at `now` stays within time and capacity. */
  predicate Guarded(store: Store, keys: seq<string>, t: int, events: seq<Event>, now: int) {
    && |Remarked(store, keys, t)| <= MAX_RECENT_SPENT_OUTPOINTS
    && WithinCapacity(AfterSave(store, keys, t), events)
    && t <= now < t + SPENT_OUTPOINT_TTL_MS && During(events, t, now)
  }

  /** Within its time, a spent outpoint that the indexer has never dropped is excluded. */
  lemma LaggingIndexerExcluded(store: Store, keys: seq<string>, t: int, events: seq<Event>, utxos: seq<LightUtxo>, now: int, u: LightUtxo)
    requires Guarded(store, keys, t, events, now) && OutpointKey(u) in keys && !DroppedIn(events, OutpointKey(u))
    ensures u !in NextSpendable(store, keys, t, events, utxos, now)
  {
    var k := OutpointKey(u);
    var marked := AfterSave(store, keys, t);
    SaveMarks(store, keys, t, k);
    MarkerSurvives(marked, events, k, t, now);
    var before := Run(marked, events);
    if u in utxos {
      assert k in ListedKeys(utxos);
      assert [Listed(utxos, now)][..0] == [];
      StepKeepsMarker(before, Listed(utxos, now), k, now);
      assert k in Keys(AfterReconcile(before, utxos, now));
    }
    SpendableMember(utxos, Keys(AfterReconcile(before, utxos, now)), u);
  }

  /**
   An outpoint spent by a successful broadcast is never offered again within the time of its marker,
   provided the indexer never lists it again after dropping it.
   */
  lemma SpentNeverSelected(store: Store, keys: seq<string>, t: int, events: seq<Event>, utxos: seq<LightUtxo>, now: int, u: LightUtxo)
    requires Guarded(store, keys, t, events, now) && OutpointKey(u) in keys
    requires NeverRelisted(events + [Listed(utxos, now)], OutpointKey(u))
    ensures u !in NextSpendable(store, keys, t, events, utxos, now)
  {
    var k := OutpointKey(u);
    var all := events + [Listed(utxos, now)];
    if DroppedIn(events, k) {
      var i :| 0 <= i < |events| && Drops(events[i], k);
      assert Drops(all[i], k) && all[|events|].Listed?;
      assert Drops(all[|events|], k);
      assert u !in utxos;
      SpendableMember(utxos, Keys(AfterReconcile(Run(AfterSave(store, keys, t), events), utxos, now)), u);
    } else {
      LaggingIndexerExcluded(store, keys, t, events, utxos, now, u);
    }
  }

  /**
   The exact condition: a listed coin that was spent comes back exactly when some answer since the
   broadcast was without it. The guard relies on the indexer alone here.
   */
  lemma SelectableAgainIff(store: Store, keys: seq<string>, t: int, events: seq<Event>, utxos: seq<LightUtxo>, now: int, u: LightUtxo)
    requires Guarded(store, keys, t, events, now) && OutpointKey(u) in keys
    requires u in utxos && u.value > 0 && !SpentIn(events, OutpointKey(u))
    ensures u in NextSpendable(store, keys, t, events, utxos, now) <==> DroppedIn(events, OutpointKey(u))
  {
    var k := OutpointKey(u);
    if DroppedIn(events, k) {
      var before := Run(AfterSave(store, keys, t), events);
      MarkerForgotten(AfterSave(store, keys, t), events, k);
      StepForgets(before, Listed(utxos, now), k);
      SpendableMember(utxos, Keys(AfterReconcile(before, utxos, now)), u);
    } else {
      LaggingIndexerExcluded(store, keys, t, events, utxos, now, u);
    }
  }

  /** It happens: the indexer first lags behind a broadcast, then drops the coin, then lists it once more. */
  lemma OfferedTwice(u: LightUtxo, t: int, dropped: int, now: int)
    requires u.value > 0 && t <= dropped <= now < t + SPENT_OUTPOINT_TTL_MS
    ensures Guarded([], [OutpointKey(u)], t, [Listed([], dropped)], now)
    ensures u in NextSpendable([], [OutpointKey(u)], t, [Listed([], dropped)], [u], now)
  {
    var k, events := OutpointKey(u), [Listed([], dropped)];
    assert |Remarked([], [k], t)| <= 1;
    assert events[..0] == [] && WithinCapacity(AfterSave([], [k], t), []);
    assert Drops(events[0], k);
    SelectableAgainIff([], [k], t, events, [u], now, u);
  }

  // ---------- Which coins are offered, over any span of time ----------

  predicate Spends(e: Event, k: string) {
    e.Spent? && k in e.keys
  }

  /** Event i is the last broadcast of k, no answer has been without k since, and its time is not over at `until`. */
  predicate Guards(events: seq<Event>, i: nat, k: string, until: int) {
    && i < |events| && Spends(events[i], k) && until < events[i].now + SPENT_OUTPOINT_TTL_MS
    && forall j :: i < j < |events| ==> !Drops(events[j], k) && !Spends(events[j], k)
  }

  lemma StepMarked(store: Store, e: Event, k: string, until: int)
    requires e.now <= until && k != "" && WithinCapacity(store, [e])
    ensures Marked(Apply(store, e), k, until) <==>
            if Drops(e, k) then false else if Spends(e, k) then until < e.now + SPENT_OUTPOINT_TTL_MS else Marked(store, k, until)
  {
    assert [e][..0] == [];
    if Drops(e, k) {
      StepForgets(store, e, k);
    } else if Spends(e, k) {
      SpentMarked(store, e, k, until);
    } else {
      var after := Apply(store, e);
      if Marked(store, k, until) {
        var i :| 0 <= i < |store| && store[i].key == k && store[i].expiresAt > until;
        KeptOrNot(store, e, store[i]);
        var j :| 0 <= j < |after| && after[j] == store[i];
      }
      if Marked(after, k, until) {
        var i :| 0 <= i < |after| && after[i].key == k && after[i].expiresAt > until;
        KeptOrNot(store, e, after[i]);
        var j :| 0 <= j < |store| && store[j] == after[i];
      }
    }
  }

  lemma SpentMarked(store: Store, e: Event, k: string, until: int)
    requires Spends(e, k) && k != "" && WithinCapacity(store, [e])
    ensures Marked(Apply(store, e), k, until) <==> until < e.now + SPENT_OUTPOINT_TTL_MS
  {
    assert [e][..0] == [];
    var after := Apply(store, e);
    if Marked(after, k, until) {
      var i :| 0 <= i < |after| && after[i].key == k && after[i].expiresAt > until;
      RemarkedMember(store, e.keys, e.now, after[i]);
    } else if until < e.now + SPENT_OUTPOINT_TTL_MS {
      SaveMarks(store, e.keys, e.now, k);
    }
  }

  /** A marker that an event is not about is there afterwards exactly if it was there before and is still live. */
  lemma KeptOrNot(store: Store, e: Event, m: Marker)
    requires WithinCapacity(store, [e]) && !Drops(e, m.key) && (Spends(e, m.key) ==> m.key == "") && m.key != ""
    ensures m in Apply(store, e) <==> m in store && m.expiresAt > e.now
  {
    assert [e][..0] == [];
    match e {
      case Spent(keys, now) => RemarkedMember(store, keys, now, m);
      case Listed(utxos, now) =>
        var available := ListedKeys(utxos);
        FilterMember(store, (m: Marker) => m.expiresAt > now && m.key in available, m);
      case Loaded(now) =>
        FilterMember(store, (m: Marker) => m.expiresAt > now, m);
    }
  }

  lemma {:induction false} MarkedIff(events: seq<Event>, k: string, until: int)
    requires k != "" && WithinCapacity([], events) && forall i :: 0 <= i < |events| ==> events[i].now <= until
    ensures Marked(Run([], events), k, until) <==> exists i :: Guards(events, i, k, until)
  {
    hide Apply, ListedKeys, Remarked, LiveMarkers;
    if events == [] {
      assert !Marked([], k, until);
    } else {
      var front, last := events[..|events| - 1], |events| - 1;
      assert [events[last]][..0] == [];
      MarkedIff(front, k, until);
      StepMarked(Run([], front), events[last], k, until);
      if i: nat :| Guards(front, i, k, until) && !Drops(events[last], k) && !Spends(events[last], k) {
        assert Guards(events, i, k, until);
      }
      if Spends(events[last], k) && until < events[last].now + SPENT_OUTPOINT_TTL_MS {
        assert Guards(events, last, k, until);
      }
      if i: nat :| Guards(events, i, k, until) {
        assert i < last ==> front[i] == events[i] && Guards(front, i, k, until);
      }
    }
  }

  /**
   From a fresh page on, however long it runs: a listed coin is kept back exactly while it has been broadcast
   less than ten minutes ago and every answer since has listed it. Once the time is over it is offered again.
   */
  lemma OfferedExactly(events: seq<Event>, utxos: seq<LightUtxo>, now: int, u: LightUtxo)
    requires WithinCapacity([], events) && (forall i :: 0 <= i < |events| ==> events[i].now <= now)
    requires u in utxos && u.value > 0
    ensures u in SpendableUtxos(utxos, Keys(AfterReconcile(Run([], events), utxos, now)))
            <==> !exists i :: Guards(events, i, OutpointKey(u), now)
  {
    hide Run, SpendableUtxos, AfterReconcile, Marked, Guards, OutpointKey, WithinCapacity;
    var before := Run([], events);
    KeyNotEmpty(u);
    MarkedIff(events, OutpointKey(u), now);
    KeptBack(before, utxos, now, u);
    SpendableMember(utxos, Keys(AfterReconcile(before, utxos, now)), u);
  }

  lemma KeyNotEmpty(u: LightUtxo)
    ensures OutpointKey(u) != ""
  {
  }

  /** An answer keeps back the listed coins with a live marker. */
  lemma KeptBack(store: Store, utxos: seq<LightUtxo>, now: int, u: LightUtxo)
    requires u in utxos
    ensures OutpointKey(u) in Keys(AfterReconcile(store, utxos, now)) <==> Marked(store, OutpointKey(u), now)
  {
    hide OutpointKey;
    var k, available, after := OutpointKey(u), ListedKeys(utxos), AfterReconcile(store, utxos, now);
    if k in Keys(after) {
      var m :| m in after && m.key == k;
      FilterMember(store, (m: Marker) => m.expiresAt > now && m.key in available, m);
    }
    if Marked(store, k, now) {
      var i :| 0 <= i < |store| && store[i].key == k && store[i].expiresAt > now;
      FilterMember(store, (m: Marker) => m.expiresAt > now && m.key in available, store[i]);
    }
  }

  // ---------- The maximum number of markers ----------

  predicate UniqueKeys(store: Store) {
    forall i, j :: 0 <= i < j < |store| ==> store[i].key != store[j].key
  }

  lemma {:induction false} FilterUnique(store: Store, p: Marker -> bool)
    requires UniqueKeys(store)
    ensures UniqueKeys(Filter(store, p))
  {
    if store != [] {
      FilterUnique(store[1..], p);
      forall m | m in Filter(store[1..], p)
        ensures m.key != store[0].key
      {
        FilterMember(store[1..], p, m);
      }
    }
  }

  lemma RemarkedUnique(store: Store, keys: seq<string>, now: int)
    requires UniqueKeys(store)
    ensures UniqueKeys(Remarked(store, keys, now))
  {
    var keySet := KeySet(keys);
    FilterUnique(store, (m: Marker) => m.expiresAt > now && m.key !in keySet);
    forall m | m in OtherMarkers(store, keySet, now)
      ensures m.key !in keySet
    {
      FilterMember(store, (m: Marker) => m.expiresAt > now && m.key !in keySet, m);
    }
    hide OtherMarkers, KeySet;
  }

  /** A save keeps a marker exactly when fewer than 2000 stand before it. */
  lemma SaveCutoff(store: Store, keys: seq<string>, now: int, i: nat)
    requires UniqueKeys(store) && i < |Remarked(store, keys, now)|
    ensures Remarked(store, keys, now)[i].key in Keys(AfterSave(store, keys, now)) <==> i < MAX_RECENT_SPENT_OUTPOINTS
    ensures UniqueKeys(AfterSave(store, keys, now))
  {
    RemarkedUnique(store, keys, now);
    hide Remarked;
  }

  /** The markers of all outpoints that the events spend, the latest first, before those of the store. */
  function Whole(store: Store, events: seq<Event>): Store {
    if events == [] then store
    else
      var last := events[|events| - 1];
      (if last.Spent? then NewMarkers(last.keys, last.now) else []) + Whole(store, events[..|events| - 1])
  }

  /** Live markers and outpoints spent within their time, each once. */
  predicate Busy(store: Store, events: seq<Event>, from: int, until: int) {
    && During(events, from, until) && until < from + SPENT_OUTPOINT_TTL_MS
    && |store| <= MAX_RECENT_SPENT_OUTPOINTS && (forall m :: m in store ==> m.expiresAt > until)
    && UniqueKeys(Whole(store, events)) && forall m :: m in Whole(store, events) ==> m.key != ""
  }

  /** The indexer lags behind: each answer lists every outpoint that is marked or spent. */
  predicate Lags(events: seq<Event>, whole: Store) {
    forall i, m :: 0 <= i < |events| && events[i].Listed? && m in whole ==> m.key in ListedKeys(events[i].utxos)
  }

  lemma {:induction false} DistinctSame(s: seq<string>)
    requires NoDuplicates(s)
    ensures Distinct(s) == s
  {
    if s != [] {
      var front := s[..|s| - 1];
      DistinctSame(front);
      assert s == front + [s[|s| - 1]];
    }
  }

  lemma {:induction false} FilterAll<T(!new)>(s: seq<T>, p: T -> bool)
    requires forall x :: x in s ==> p(x)
    ensures Filter(s, p) == s
  {
    if s != [] {
      FilterAll(s[1..], p);
    }
  }

  lemma KeySetSame(keys: seq<string>)
    requires NoDuplicates(keys) && "" !in keys
    ensures KeySet(keys) == keys
  {
    FilterAll(keys, (k: string) => k != "");
    DistinctSame(keys);
  }

  lemma OthersSame(store: Store, keys: seq<string>, now: int)
    requires forall m :: m in store ==> m.expiresAt > now && m.key !in keys
    ensures OtherMarkers(store, keys, now) == store
  {
    FilterAll(store, (m: Marker) => m.expiresAt > now && m.key !in keys);
  }

  /** Saving fresh outpoints puts their markers in front of a list that was cut before. */
  lemma SpentStep(whole: Store, keys: seq<string>, now: int)
    requires UniqueKeys(NewMarkers(keys, now) + whole) && "" !in keys && forall m :: m in whole ==> m.expiresAt > now
    ensures AfterSave(Take(whole, MAX_RECENT_SPENT_OUTPOINTS), keys, now) == Take(NewMarkers(keys, now) + whole, MAX_RECENT_SPENT_OUTPOINTS)
  {
    var before, all := Take(whole, MAX_RECENT_SPENT_OUTPOINTS), NewMarkers(keys, now) + whole;
    assert forall i :: 0 <= i < |keys| ==> all[i].key == keys[i];
    assert forall i :: 0 <= i < |whole| ==> all[|keys| + i] == whole[i];
    KeySetSame(keys);
    forall m | m in before
      ensures m.expiresAt > now && m.key !in keys
    {
      var i :| 0 <= i < |before| && before[i] == m;
      assert whole[i] == m && m in whole;
    }
    OthersSame(before, keys, now);
  }

  lemma ListedStep(whole: Store, utxos: seq<LightUtxo>, now: int)
    requires forall m :: m in whole ==> m.expiresAt > now && m.key in ListedKeys(utxos)
    ensures AfterReconcile(Take(whole, MAX_RECENT_SPENT_OUTPOINTS), utxos, now) == Take(whole, MAX_RECENT_SPENT_OUTPOINTS)
  {
    var available, before := ListedKeys(utxos), Take(whole, MAX_RECENT_SPENT_OUTPOINTS);
    assert forall m :: m in before ==> m in whole;
    FilterAll(before, (m: Marker) => m.expiresAt > now && m.key in available);
  }

  lemma LoadedStep(whole: Store, now: int)
    requires forall m :: m in whole ==> m.expiresAt > now
    ensures AfterLoad(Take(whole, MAX_RECENT_SPENT_OUTPOINTS), now) == Take(whole, MAX_RECENT_SPENT_OUTPOINTS)
  {
    var before := Take(whole, MAX_RECENT_SPENT_OUTPOINTS);
    assert forall m :: m in before ==> m in whole;
    FilterAll(before, (m: Marker) => m.expiresAt > now);
  }

  lemma WholeLast(store: Store, events: seq<Event>)
    requires events != []
    ensures var last := events[|events| - 1];
            Whole(store, events) == (if last.Spent? then NewMarkers(last.keys, last.now) else []) + Whole(store, events[..|events| - 1])
  {
  }

  lemma UniqueRest(first: Store, rest: Store)
    requires UniqueKeys(first + rest)
    ensures UniqueKeys(rest) && forall m :: m in rest ==> m in first + rest
  {
    assert forall i :: 0 <= i < |rest| ==> rest[i] == (first + rest)[|first| + i];
  }

  lemma BusyFront(store: Store, events: seq<Event>, from: int, until: int)
    requires Busy(store, events, from, until) && events != [] && Lags(events, Whole(store, events))
    ensures Busy(store, events[..|events| - 1], from, until)
    ensures Lags(events[..|events| - 1], Whole(store, events[..|events| - 1]))
  {
    hide Whole, UniqueKeys;
    var last := events[|events| - 1];
    WholeLast(store, events);
    UniqueRest(if last.Spent? then NewMarkers(last.keys, last.now) else [], Whole(store, events[..|events| - 1]));
  }

  lemma {:induction false} WholeLive(store: Store, events: seq<Event>, from: int, until: int)
    requires During(events, from, until) && until < from + SPENT_OUTPOINT_TTL_MS && forall m :: m in store ==> m.expiresAt > until
    ensures forall m :: m in Whole(store, events) ==> m.expiresAt > until
  {
    if events != [] {
      WholeLive(store, events[..|events| - 1], from, until);
    }
  }

  lemma BusyStep(whole: Store, part: Store, last: Event)
    requires whole == (if last.Spent? then NewMarkers(last.keys, last.now) else []) + part
    requires UniqueKeys(whole) && (forall m :: m in whole ==> m.key != "") && forall m :: m in part ==> m.expiresAt > last.now
    requires last.Listed? ==> forall m :: m in whole ==> m.key in ListedKeys(last.utxos)
    ensures Apply(Take(part, MAX_RECENT_SPENT_OUTPOINTS), last) == Take(whole, MAX_RECENT_SPENT_OUTPOINTS)
  {
    hide UniqueKeys, AfterSave, AfterReconcile, AfterLoad, ListedKeys;
    match last {
      case Spent(keys, now) =>
        assert forall i :: 0 <= i < |keys| ==> whole[i].key == keys[i] && whole[i] in whole;
        SpentStep(part, keys, now);
      case Listed(utxos, now) => ListedStep(part, utxos, now);
      case Loaded(now) => LoadedStep(part, now);
    }
  }

  /** A busy run only puts the new markers in front, and cuts the list at its maximum. */
  lemma {:induction false} BusyRun(store: Store, events: seq<Event>, from: int, until: int)
    requires Busy(store, events, from, until) && Lags(events, Whole(store, events))
    ensures Run(store, events) == Take(Whole(store, events), MAX_RECENT_SPENT_OUTPOINTS)
  {
    if events != [] {
      hide Whole, UniqueKeys, Apply, NewMarkers;
      var front, last := events[..|events| - 1], events[|events| - 1];
      BusyFront(store, events, from, until);
      BusyRun(store, front, from, until);
      WholeLive(store, front, from, until);
      WholeLast(store, events);
      BusyStep(Whole(store, events), Whole(store, front), last);
    }
  }

  lemma TakeMarked(whole: Store, until: int, i: nat)
    requires UniqueKeys(whole) && i < |whole| && forall m :: m in whole ==> m.expiresAt > until
    ensures Marked(Take(whole, MAX_RECENT_SPENT_OUTPOINTS), whole[i].key, until) <==> i < MAX_RECENT_SPENT_OUTPOINTS
  {
    var kept := Take(whole, MAX_RECENT_SPENT_OUTPOINTS);
    if i < MAX_RECENT_SPENT_OUTPOINTS {
      assert kept[i] == whole[i] && whole[i] in whole;
    }
  }

  /** Over a busy run a marker survives exactly when fewer than 2000 stand before it, newly spent or already there. */
  lemma OverflowIff(store: Store, events: seq<Event>, from: int, until: int, i: nat)
    requires Busy(store, events, from, until) && Lags(events, Whole(store, events)) && i < |Whole(store, events)|
    ensures Marked(Run(store, events), Whole(store, events)[i].key, until) <==> i < MAX_RECENT_SPENT_OUTPOINTS
  {
    hide Whole, Run, UniqueKeys, Marked;
    BusyRun(store, events, from, until);
    WholeLive(store, events, from, until);
    TakeMarked(Whole(store, events), until, i);
  }

  // A page that sends 150 coins fourteen times while the indexer lags.

  function BusyCoin(n: nat): LightUtxo {
    LightUtxo(Zeros(n + 1), 0, 1000, 1)
  }

  function BusyCoins(from: nat, count: nat): seq<LightUtxo> {
    seq(count, i requires 0 <= i < count => BusyCoin(from + i))
  }

  function BusyKeys(from: nat, count: nat): seq<string> {
    seq(count, i requires 0 <= i < count => OutpointKey(BusyCoin(from + i)))
  }

  const ALL_COINS := BusyCoins(0, 2101)

  /** n sends of 150 coins each, with an answer that lists all coins before each of them; coin 0 was spent before. */
  function BusySends(n: nat): seq<Event> {
    if n == 0 then [] else BusySends(n - 1) + [Listed(ALL_COINS, 1), Spent(BusyKeys(150 * n - 149, 150), 1)]
  }

  /** Keys of different coins differ in length. */
  predicate BusyKey(k: string, n: nat) {
    |k| >= 3 && k == OutpointKey(BusyCoin(|k| - 3)) && |k| <= n + 3
  }

  lemma BusyKeyLength(n: nat)
    ensures |OutpointKey(BusyCoin(n))| == n + 3 && BusyKey(OutpointKey(BusyCoin(n)), n)
  {
    assert ToDecimal(0) == "0";
  }

  function FirstMarker(): Store {
    [Marker(OutpointKey(BusyCoin(0)), 1 + SPENT_OUTPOINT_TTL_MS)]
  }

  lemma BusyWholeNext(n: nat)
    requires n > 0
    ensures Whole(FirstMarker(), BusySends(n))
         == NewMarkers(BusyKeys(150 * n - 149, 150), 1) + Whole(FirstMarker(), BusySends(n - 1))
  {
    var events, before := BusySends(n), BusySends(n - 1);
    assert events[..|events| - 1] == before + [Listed(ALL_COINS, 1)];
    assert (before + [Listed(ALL_COINS, 1)])[..|before|] == before;
    hide BusySends, BusyKeys, NewMarkers, FirstMarker;
    WholeLast(FirstMarker(), events);
    WholeLast(FirstMarker(), events[..|events| - 1]);
  }

  lemma {:induction false} BusyWhole(n: nat)
    ensures var whole := Whole(FirstMarker(), BusySends(n));
            && |whole| == 150 * n + 1 && whole[150 * n] == FirstMarker()[0] && UniqueKeys(whole)
            && forall m :: m in whole ==> BusyKey(m.key, 150 * n)
  {
    if n == 0 {
      BusyKeyLength(0);
    } else {
      BusyWhole(n - 1);
      BusyWholeNext(n);
      BusyBatch(n, Whole(FirstMarker(), BusySends(n - 1)));
      hide Whole, BusySends, UniqueKeys, BusyKey, FirstMarker;
    }
  }

  lemma BusyBatch(n: nat, rest: Store)
    requires n > 0 && UniqueKeys(rest) && forall m :: m in rest ==> BusyKey(m.key, 150 * n - 150)
    ensures var whole := NewMarkers(BusyKeys(150 * n - 149, 150), 1) + rest;
            UniqueKeys(whole) && forall m :: m in whole ==> BusyKey(m.key, 150 * n)
  {
    hide OutpointKey;
    var added := NewMarkers(BusyKeys(150 * n - 149, 150), 1);
    forall i | 0 <= i < |added|
      ensures |added[i].key| == 150 * n - 149 + i + 3 && BusyKey(added[i].key, 150 * n)
    {
      BusyKeyLength(150 * n - 149 + i);
    }
  }

  lemma BusyListed(k: string)
    requires BusyKey(k, 2100)
    ensures k in ListedKeys(ALL_COINS)
  {
    hide OutpointKey;
    assert ALL_COINS[|k| - 3] == BusyCoin(|k| - 3);
  }

  lemma {:induction false} BusyEvents(n: nat)
    requires n <= 14
    ensures During(BusySends(n), 1, 1)
    ensures forall e :: e in BusySends(n) ==> if e.Spent? then |e.keys| <= MAX_INPUTS else e == Listed(ALL_COINS, 1)
  {
    if n > 0 {
      BusyEvents(n - 1);
    }
  }

  lemma UnmarkedOffered(store: Store, utxos: seq<LightUtxo>, now: int, u: LightUtxo)
    requires !Marked(store, OutpointKey(u), now) && u in utxos && u.value > 0
    ensures u in SpendableUtxos(utxos, Keys(AfterReconcile(store, utxos, now)))
  {
    var available, after := ListedKeys(utxos), AfterReconcile(store, utxos, now);
    forall m | m in after
      ensures m.key != OutpointKey(u)
    {
      FilterMember(store, (m: Marker) => m.expiresAt > now && m.key in available, m);
    }
    SpendableMember(utxos, Keys(after), u);
  }

  lemma FirstSave()
    ensures AfterSave([], [OutpointKey(BusyCoin(0))], 1) == FirstMarker()
  {
    hide OutpointKey, KeySet, OtherMarkers;
    var k := OutpointKey(BusyCoin(0));
    BusyKeyLength(0);
    KeySetSame([k]);
    OthersSame([], [k], 1);
    assert NewMarkers([k], 1) == FirstMarker();
  }

  /**
   Fourteen sends of 150 coins each, all within one millisecond and with an indexer that drops nothing, push
   out the marker of a coin spent before them: the coin is offered again.
   */
  lemma OverflowOffers()
    ensures var k, events := OutpointKey(BusyCoin(0)), BusySends(14);
            && (forall e :: e in events && e.Spent? ==> |e.keys| <= MAX_INPUTS) && During(events, 1, 1) && !DroppedIn(events, k)
            && BusyCoin(0) in NextSpendable([], [k], 1, events, ALL_COINS, 1)
  {
    hide BusySends, Whole, Run, BusyKey, OutpointKey, AfterSave, UniqueKeys, Marked, SpendableUtxos, AfterReconcile, ListedKeys;
    var k, events := OutpointKey(BusyCoin(0)), BusySends(14);
    var whole := Whole(FirstMarker(), events);
    FirstSave();
    BusyEvents(14);
    BusyWhole(14);
    forall m | m in whole
      ensures m.key in ListedKeys(ALL_COINS) && m.key != ""
    {
      BusyListed(m.key);
      NotEmptyKey(m.key);
    }
    assert FirstMarker()[0] in whole && forall i :: 0 <= i < |events| ==> events[i] in events;
    OverflowIff(FirstMarker(), events, 1, 1, 2100);
    assert BusyCoin(0) == ALL_COINS[0];
    UnmarkedOffered(Run(FirstMarker(), events), ALL_COINS, 1, BusyCoin(0));
  }

  lemma NotEmptyKey(k: string)
    requires BusyKey(k, 2100)
    ensures k != ""
  {
  }

  // ---------- Preparing a transaction ----------

  datatype SendForm = SendForm(to: string, amount: nat, fee: nat, subtractFee: bool, changeAddress: string)

  function Recipient(form: SendForm): int {
    if form.subtractFee then form.amount - form.fee else form.amount
  }

  function TotalSpent(form: SendForm): nat {
    if form.subtractFee then form.amount else form.amount + form.fee
  }

  predicate ValidForm(form: SendForm) {
    form.amount > 0 && form.fee > 0 && Recipient(form) > DUST_ATOMIC
  }

  datatype SendError = InvalidForm | NoSpendable | InsufficientSpendable | TooManyInputs | Failed(error: TxError)

  datatype Preview = Preview(tx: Tx, spentOutpoints: seq<string>, selectedTotal: nat, change: nat)

  function Coin(u: LightUtxo): Utxo {
    Utxo(u.txid, u.vout, Str(IntText(u.value)))
  }

  function Coins(utxos: seq<LightUtxo>): seq<Utxo> {
    seq(|utxos|, i requires 0 <= i < |utxos| => Coin(utxos[i]))
  }

  function OutpointKeys(utxos: seq<LightUtxo>): seq<string> {
    seq(|utxos|, i requires 0 <= i < |utxos| => OutpointKey(utxos[i]))
  }

  function CoinKey(c: Utxo): string {
    c.txid + ":" + IntText(c.vout)
  }

  function AtomicTotal(utxos: seq<LightUtxo>): nat {
    if utxos == [] then 0
    else
      var value := utxos[|utxos| - 1].value;
      AtomicTotal(utxos[..|utxos| - 1]) + if value > 0 then value else 0
  }

  /** Distinct outpoints and values in range, as an indexer lists them. */
  predicate WellListed(utxos: seq<LightUtxo>) {
    && (forall i :: 0 <= i < |utxos| ==> 0 < utxos[i].value <= SATOSHI_MAX && utxos[i].vout <= UINT32_MAX)
    && forall i, j :: 0 <= i < j < |utxos| ==> OutpointKey(utxos[i]) != OutpointKey(utxos[j])
  }

  /** Some selection of at most n of the coins reaches the target. */
  ghost predicate Suffice(coins: seq<Utxo>, n: nat, target: nat) {
    exists s: seq<Utxo> :: multiset(s) <= multiset(coins) && |s| <= n && Total(s) >= target
  }

  /**
   What a preview says is what its transaction does. With the fee subtracted the recipient gets the amount
   less the fee and the wallet pays the amount; otherwise the recipient gets the amount and the wallet pays
   the fee on top. The rest goes back to the wallet.
   */
  ghost predicate Consistent(preview: Preview, selected: seq<LightUtxo>, form: SendForm) {
    && preview.tx.inputs == Coins(selected) && preview.spentOutpoints == OutpointKeys(selected)
    && preview.selectedTotal == Total(preview.tx.inputs) == OutputTotal(preview.tx.outputs) + form.fee
    && preview.selectedTotal == preview.change + (if form.subtractFee then form.amount else form.amount + form.fee)
    && Pays(preview.tx.outputs, form.to, if form.subtractFee then form.amount - form.fee else form.amount, form.changeAddress, preview.change)
  }

  /** Whom a consistent preview pays: the recipient exactly the amount, less the fee if it is subtracted. */
  lemma PreviewPays(preview: Preview, selected: seq<LightUtxo>, form: SendForm)
    requires Consistent(preview, selected, form) && form.to != form.changeAddress
    ensures Received(preview.tx.outputs, form.to) == if form.subtractFee then form.amount - form.fee else form.amount
    ensures Received(preview.tx.outputs, form.changeAddress) == preview.change
    ensures Total(preview.tx.inputs) == preview.change + form.amount + if form.subtractFee then 0 else form.fee
  {
    hide Total, Received, OutputTotal;
    var amount := if form.subtractFee then form.amount - form.fee else form.amount;
    PaysWhom(preview.tx.outputs, form.to, amount, form.changeAddress, preview.change, form.to);
    PaysWhom(preview.tx.outputs, form.to, amount, form.changeAddress, preview.change, form.changeAddress);
  }

  /** The selected coins, signed: recipient, fee and previewed change use them up in both subtract-fee modes. */
  method BuildPreview(selected: seq<LightUtxo>, form: SendForm) returns (r: Result<Preview, SendError>)
    requires ValidForm(form)
    ensures r.Ok? ==> Consistent(r.value, selected, form)
    ensures r.Err? ==> r.error.Failed?
    ensures TotalSpent(form) <= SATOSHI_MAX && TxBuilder.Spendable(Coins(selected)) && Total(Coins(selected)) >= TotalSpent(form) ==> r.Ok?
  {
    hide Total, OutputTotal, ToSatoshi, Received, AtomicTotal;
    var selectedTotal := AtomicTotal(selected);
    TotalOfCoins(selected);
    ToSatoshiOfText(Recipient(form));
    ToSatoshiOfText(form.fee);
    var built := BuildAndSignP2PKH(Coins(selected), form.to, Str(ToDecimal(Recipient(form))),
                                   form.changeAddress, Str(ToDecimal(form.fee)));
    if built.Err? {
      return Err(Failed(built.error));
    }
    return Ok(Preview(built.value, OutpointKeys(selected), selectedTotal, selectedTotal - TotalSpent(form)));
  }

  /**
   From the spendable coins to the signed transaction of some of them. On well-listed coins the send
   succeeds exactly when some 150 of them suffice, and it uses the fewest inputs possible.
   */
  method Prepare(spendable: seq<LightUtxo>, form: SendForm) returns (r: Result<Preview, SendError>)
    ensures r == Err(InvalidForm) <==>
            form.amount == 0 || form.fee == 0 || (if form.subtractFee then form.amount - form.fee else form.amount) <= DUST_ATOMIC
    ensures ValidForm(form) ==> (r == Err(NoSpendable) <==> spendable == [])
    ensures ValidForm(form) && spendable != [] ==> (r == Err(InsufficientSpendable) <==> AtomicTotal(spendable) < TotalSpent(form))
    ensures r.Ok? ==> exists picked :: Consistent(r.value, Reselect(spendable, picked), form)
    ensures r.Ok? && form.to != form.changeAddress ==>
              && Received(r.value.tx.outputs, form.to) == (if form.subtractFee then form.amount - form.fee else form.amount)
              && Received(r.value.tx.outputs, form.changeAddress) == r.value.change
    ensures WellListed(spendable) && ValidForm(form) && TotalSpent(form) <= SATOSHI_MAX ==>
              && (r.Ok? <==> Suffice(Coins(spendable), MAX_INPUTS, TotalSpent(form)))
              && (r == Err(TooManyInputs) <==> AtomicTotal(spendable) >= TotalSpent(form) && !r.Ok?)
    ensures WellListed(spendable) && r.Ok? ==> Fewest(Coins(spendable), TotalSpent(form), r.value.tx.inputs)
  {
    hide Fewest, Total, OutputTotal, ToSatoshi, LargestFirst, Greedy, WellListed, Received, Pays, Reselect, PickedKeys, TxBuilder.Spendable;
    if !ValidForm(form) {
      return Err(InvalidForm);
    }
    var coins := Coins(spendable);
    var target := TotalSpent(form);
    ghost var wellListed := WellListed(spendable);
    if wellListed {
      ListedSpendable(spendable);
    }
    NotEnough(coins, MAX_INPUTS, target);
    if spendable == [] {
      return Err(NoSpendable);
    }
    if AtomicTotal(spendable) < target {
      return Err(InsufficientSpendable);
    }
    ToSatoshiOfText(target);
    var selected := SelectUtxos(coins, Str(ToDecimal(target)));
    if selected.Err? {
      return Err(Failed(selected.error));
    }
    var picked := selected.value.picked;
    if |picked| > MAX_INPUTS {
      if wellListed {
        SelectedWell(spendable, target, picked);
      }
      return Err(TooManyInputs);
    }
    var selectedLight := Reselect(spendable, picked);
    if wellListed {
      SelectedWell(spendable, target, picked);
    }
    r := BuildPreview(selectedLight, form);
    if r.Ok? && form.to != form.changeAddress {
      PreviewPays(r.value, selectedLight, form);
    }
  }

  lemma SelectedWell(utxos: seq<LightUtxo>, target: nat, picked: seq<Utxo>)
    requires WellListed(utxos) && Greedy(Coins(utxos), target, picked) && target > 0
    ensures Suffice(Coins(utxos), MAX_INPUTS, target) <==> |picked| <= MAX_INPUTS
    ensures TxBuilder.Spendable(Coins(Reselect(utxos, picked))) && Total(Coins(Reselect(utxos, picked))) >= target
    ensures Fewest(Coins(utxos), target, Coins(Reselect(utxos, picked)))
  {
    hide *;
    ListedSpendable(utxos);
    SufficeIffFew(Coins(utxos), target, picked, MAX_INPUTS);
    GreedyOptimal(Coins(utxos), target, picked);
    ReselectedCoins(utxos, picked);
    SameCoins(Coins(utxos), target, picked, Coins(Reselect(utxos, picked)));
  }

  lemma CoinValue(u: LightUtxo)
    ensures ToSatoshi(Coin(u).value).Ok? <==> 0 <= u.value <= SATOSHI_MAX
    ensures 0 <= u.value <= SATOSHI_MAX ==> Val(Coin(u)) == u.value
  {
    if u.value >= 0 {
      ToSatoshiOfText(u.value);
    } else {
      MinusRefused(u.value);
    }
  }

  lemma {:induction false} TotalOfCoins(utxos: seq<LightUtxo>)
    ensures ValidUtxos(Coins(utxos)) ==> Total(Coins(utxos)) == AtomicTotal(utxos)
  {
    hide ToSatoshi, Val;
    if utxos != [] {
      var last := |utxos| - 1;
      TotalOfCoins(utxos[..last]);
      assert Coins(utxos)[..last] == Coins(utxos[..last]);
      CoinValue(utxos[last]);
      assert ValidUtxos(Coins(utxos)) ==> ToSatoshi(Coins(utxos)[last].value).Ok?;
    }
  }

  lemma ListedSpendable(utxos: seq<LightUtxo>)
    requires WellListed(utxos)
    ensures ValidUtxos(Coins(utxos)) && TxBuilder.Spendable(Coins(utxos)) && Total(Coins(utxos)) == AtomicTotal(utxos)
  {
    hide ToSatoshi, Val, Total, AtomicTotal;
    forall i | 0 <= i < |utxos|
      ensures ToSatoshi(Coins(utxos)[i].value).Ok?
    {
      CoinValue(utxos[i]);
    }
    forall i, j | 0 <= i < j < |utxos|
      ensures (utxos[i].txid, utxos[i].vout) != (utxos[j].txid, utxos[j].vout)
    {
      OutpointKeyInjective(utxos[i], utxos[j]);
    }
    TotalOfCoins(utxos);
  }

  lemma NotEnough(coins: seq<Utxo>, n: nat, target: nat)
    ensures Total(coins) < target ==> !Suffice(coins, n, target)
  {
    hide Total;
    forall s: seq<Utxo> | multiset(s) <= multiset(coins)
      ensures Total(s) <= Total(coins)
    {
      SubTotal(s, coins);
    }
  }

  /** By optimality, some n coins suffice exactly when the greedy choice has at most n. */
  lemma SufficeIffFew(coins: seq<Utxo>, target: nat, picked: seq<Utxo>, n: nat)
    requires Greedy(coins, target, picked) && target > 0
    ensures Suffice(coins, n, target) <==> |picked| <= n
  {
    hide Total, LargestFirst;
    GreedyOptimal(coins, target, picked);
  }

  function PickedKeys(picked: seq<Utxo>): set<string> {
    set c | c in picked :: CoinKey(c)
  }

  function Reselect(utxos: seq<LightUtxo>, picked: seq<Utxo>): seq<LightUtxo> {
    var selectedKeys := PickedKeys(picked);
    Filter(utxos, (u: LightUtxo) => OutpointKey(u) in selectedKeys)
  }

  lemma KeyOfCoin(u: LightUtxo)
    ensures CoinKey(Coin(u)) == OutpointKey(u)
  {
  }

  lemma SameKeySameCoin(utxos: seq<LightUtxo>, u: LightUtxo, v: LightUtxo)
    requires WellListed(utxos) && u in utxos && v in utxos && OutpointKey(u) == OutpointKey(v)
    ensures u == v
  {
  }

  lemma PickedByKey(utxos: seq<LightUtxo>, picked: seq<Utxo>, u: LightUtxo)
    requires WellListed(utxos) && u in utxos && multiset(picked) <= multiset(Coins(utxos))
    ensures OutpointKey(u) in PickedKeys(picked) <==> Coin(u) in picked
  {
    hide WellListed, OutpointKey, CoinKey, Coin;
    KeyOfCoin(u);
    if OutpointKey(u) in PickedKeys(picked) {
      var c :| c in picked && CoinKey(c) == OutpointKey(u);
      assert c in multiset(picked) && c in multiset(Coins(utxos));
      var j :| 0 <= j < |utxos| && Coins(utxos)[j] == c;
      KeyOfCoin(utxos[j]);
      SameKeySameCoin(utxos, u, utxos[j]);
    }
  }

  /** What a send spends was listed as spendable. */
  lemma ReselectedListed(utxos: seq<LightUtxo>, picked: seq<Utxo>, u: LightUtxo)
    requires u in Reselect(utxos, picked)
    ensures u in utxos
  {
    var selectedKeys := PickedKeys(picked);
    FilterMember(utxos, (u: LightUtxo) => OutpointKey(u) in selectedKeys, u);
  }

  /** Reselecting the listed coins by key gives exactly the picked coins back. */
  lemma ReselectedCoins(utxos: seq<LightUtxo>, picked: seq<Utxo>)
    requires WellListed(utxos) && multiset(picked) <= multiset(Coins(utxos))
    ensures multiset(Coins(Reselect(utxos, picked))) == multiset(picked)
  {
    hide WellListed, PickedKeys;
    var selectedKeys := PickedKeys(picked);
    var p := (u: LightUtxo) => OutpointKey(u) in selectedKeys;
    forall c: Utxo
      ensures multiset(picked)[c] == multiset(Coins(Reselect(utxos, picked)))[c]
    {
      CountOne(utxos, c);
      FilteredCoins(utxos, p, c);
      if c in picked {
        assert c in multiset(picked) && c in multiset(Coins(utxos));
        var j :| 0 <= j < |utxos| && Coins(utxos)[j] == c;
        PickedByKey(utxos, picked, utxos[j]);
      } else if u :| u in utxos && p(u) && Coin(u) == c {
        PickedByKey(utxos, picked, u);
      }
    }
  }

  lemma CountOne(utxos: seq<LightUtxo>, c: Utxo)
    requires WellListed(utxos)
    ensures multiset(Coins(utxos))[c] <= 1
    ensures c in Coins(utxos) ==> multiset(Coins(utxos))[c] == 1
  {
    hide ToSatoshi;
    ListedSpendable(utxos);
    if c in Coins(utxos) {
      var i :| 0 <= i < |utxos| && Coins(utxos)[i] == c;
      Unique(Coins(utxos), i);
    }
  }

  predicate Chosen(utxos: seq<LightUtxo>, p: LightUtxo -> bool, c: Utxo) {
    exists u :: u in utxos && p(u) && Coin(u) == c
  }

  lemma ChosenHead(utxos: seq<LightUtxo>, p: LightUtxo -> bool, c: Utxo)
    requires WellListed(utxos) && utxos != []
    ensures Chosen(utxos, p, c) <==> (p(utxos[0]) && Coin(utxos[0]) == c) || Chosen(utxos[1..], p, c)
    ensures Coin(utxos[0]) == c ==> !Chosen(utxos[1..], p, c)
  {
  }

  lemma {:induction false} FilteredCoins(utxos: seq<LightUtxo>, p: LightUtxo -> bool, c: Utxo)
    requires WellListed(utxos)
    ensures multiset(Coins(Filter(utxos, p)))[c] == if Chosen(utxos, p, c) then 1 else 0
  {
    hide OutpointKey, Coin, Chosen;
    if utxos != [] {
      var head, rest := utxos[0], utxos[1..];
      ChosenHead(utxos, p, c);
      FilteredCoins(rest, p, c);
      var more := Coins(Filter(rest, p));
      if p(head) {
        assert Coins(Filter(utxos, p)) == [Coin(head)] + more;
        assert multiset([Coin(head)] + more)[c] == multiset([Coin(head)])[c] + multiset(more)[c];
      } else {
        assert Coins(Filter(utxos, p)) == more;
      }
    } else {
      NoneChosen(utxos, p, c);
    }
  }

  lemma NoneChosen(utxos: seq<LightUtxo>, p: LightUtxo -> bool, c: Utxo)
    requires utxos == []
    ensures !Chosen(utxos, p, c)
  {
  }

  lemma SameCoins(coins: seq<Utxo>, target: nat, picked: seq<Utxo>, reselected: seq<Utxo>)
    requires TxBuilder.Spendable(coins) && Greedy(coins, target, picked) && target > 0
    requires multiset(reselected) == multiset(picked)
    ensures TxBuilder.Spendable(reselected) && Total(reselected) == Total(picked) >= target
    ensures Fewest(coins, target, reselected)
  {
    hide Total, LargestFirst, ToSatoshi;
    GreedyOptimal(coins, target, picked);
    assert |multiset(reselected)| == |multiset(picked)|;
    SubTotal(reselected, picked);
    SubTotal(picked, reselected);
    PermutedSpendable(reselected, coins);
  }

  lemma PermutedSpendable(part: seq<Utxo>, coins: seq<Utxo>)
    requires TxBuilder.Spendable(coins) && multiset(part) <= multiset(coins)
    ensures TxBuilder.Spendable(part)
  {
    var rest: seq<Utxo> := Complement(part, coins);
    PartSpendable(part, part + rest, coins);
  }

  function Complement(part: seq<Utxo>, coins: seq<Utxo>): (rest: seq<Utxo>)
    requires multiset(part) <= multiset(coins)
    ensures multiset(part + rest) == multiset(coins)
    decreases |part|
  {
    hide Total, Val;
    if part == [] then coins
    else
      assert part[0] in multiset(part) && part[0] in multiset(coins);
      var i := Position(coins, part[0]);
      assert part == [part[0]] + part[1..];
      TotalWithout(coins, i);
      Complement(part[1..], coins[..i] + coins[i + 1..])
  }

  // ---------- The page ----------

  datatype Answer = Answer(utxos: seq<LightUtxo>, now: int)

  function AnswerEvents(answers: seq<Answer>): seq<Event> {
    seq(|answers|, i requires 0 <= i < |answers| => Listed(answers[i].utxos, answers[i].now))
  }

  /** What an answer offers for spending, with the markers as the answers up to it leave them. */
  function Offered(store: Store, answers: seq<Answer>): seq<LightUtxo>
    requires answers != []
  {
    SpendableUtxos(answers[|answers| - 1].utxos, Keys(Run(store, AnswerEvents(answers))))
  }

  /** Every answer but the last one offered too little. */
  predicate FellShort(store: Store, answers: seq<Answer>, target: nat) {
    |answers| <= 1 ||
    (FellShort(store, answers[..|answers| - 1], target) && AtomicTotal(Offered(store, answers[..|answers| - 1])) < target)
  }

  lemma FellShortMore(store: Store, answers: seq<Answer>, used: nat, target: nat)
    requires used < |answers| && FellShort(store, answers[..used], target)
    requires used > 0 ==> AtomicTotal(Offered(store, answers[..used])) < target
    ensures FellShort(store, answers[..used + 1], target)
  {
    assert answers[..used + 1][..used] == answers[..used];
  }

  class Page {
    var markers: Store

    constructor ()
      ensures markers == []
    {
      markers := [];
    }

    method LoadRecentSpent(now: int) returns (keys: set<string>)
      modifies this
      ensures markers == Apply(old(markers), Loaded(now)) && keys == Keys(markers)
    {
      var valid := Filter(markers, (m: Marker) => m.expiresAt > now);
      markers := Take(valid, MAX_RECENT_SPENT_OUTPOINTS);
      keys := Keys(markers);
    }

    method LoadSpendableSnapshot(answer: Answer) returns (spendable: seq<LightUtxo>)
      modifies this
      ensures markers == Apply(old(markers), Listed(answer.utxos, answer.now))
      ensures spendable == SpendableUtxos(answer.utxos, Keys(markers))
    {
      var available := ListedKeys(answer.utxos);
      markers := Filter(markers, (m: Marker) => m.expiresAt > answer.now && m.key in available);
      spendable := SpendableUtxos(answer.utxos, Keys(markers));
    }

    /**
     Asks the indexer up to 1 + 5 times, until an answer offers enough, and prepares the transaction
     from the last answer taken.
     */
    method BuildSignedTx(form: SendForm, answers: seq<Answer>) returns (r: Result<Preview, SendError>, used: nat)
      requires |answers| == 1 + UTXO_RETRY_ATTEMPTS
      modifies this
      ensures !ValidForm(form) ==> r == Err(InvalidForm) && used == 0
      ensures ValidForm(form) ==> 1 <= used <= |answers|
      ensures used <= |answers| && markers == Run(old(markers), AnswerEvents(answers[..used]))
      ensures used <= |answers| && FellShort(old(markers), answers[..used], TotalSpent(form))
      ensures used > 0 ==> used == |answers| || AtomicTotal(Offered(old(markers), answers[..used])) >= TotalSpent(form)
      ensures r.Ok? ==> used > 0 && exists picked :: Consistent(r.value, Reselect(Offered(old(markers), answers[..used]), picked), form)
      ensures r.Ok? && form.to != form.changeAddress ==>
                Received(r.value.tx.outputs, form.to) == if form.subtractFee then form.amount - form.fee else form.amount
      ensures used > 0 && WellListed(Offered(old(markers), answers[..used])) && TotalSpent(form) <= SATOSHI_MAX ==>
                (r.Ok? <==> Suffice(Coins(Offered(old(markers), answers[..used])), MAX_INPUTS, TotalSpent(form)))
    {
      hide Consistent, Received, Reselect, Suffice, AtomicTotal, SpendableUtxos, WellListed, Coins, Fewest, AnswerEvents, Run, Apply, Keys, FellShort;
      EmptyRun(markers, answers, TotalSpent(form));
      if !ValidForm(form) {
        return Err(InvalidForm), 0;
      }
      FellShortMore(markers, answers, 0, TotalSpent(form));
      RunAnswer(markers, answers, 0);
      var spendable := LoadSpendableSnapshot(answers[0]);
      used := 1;
      while AtomicTotal(spendable) < TotalSpent(form) && used <= UTXO_RETRY_ATTEMPTS
        invariant 1 <= used <= |answers|
        invariant markers == Run(old(markers), AnswerEvents(answers[..used]))
        invariant spendable == Offered(old(markers), answers[..used])
        invariant FellShort(old(markers), answers[..used], TotalSpent(form))
        decreases |answers| - used
      {
        FellShortMore(old(markers), answers, used, TotalSpent(form));
        RunAnswer(old(markers), answers, used);
        spendable := LoadSpendableSnapshot(answers[used]);
        used := used + 1;
      }
      r := Prepare(spendable, form);
    }

    /** Marks what a preview spends once its broadcast has succeeded, and only then. */
    method Broadcast(preview: Preview, accepted: bool, now: int)
      modifies this
      ensures markers == if accepted && preview.spentOutpoints != [] then Apply(old(markers), Spent(preview.spentOutpoints, now)) else old(markers)
    {
      if accepted && preview.spentOutpoints != [] {
        var keySet := KeySet(preview.spentOutpoints);
        var kept := Filter(markers, (m: Marker) => m.expiresAt > now && m.key !in keySet);
        markers := Take(NewMarkers(keySet, now) + kept, MAX_RECENT_SPENT_OUTPOINTS);
      }
    }
  }

  lemma EmptyRun(store: Store, answers: seq<Answer>, target: nat)
    ensures Run(store, AnswerEvents(answers[..0])) == store && FellShort(store, answers[..0], target)
  {
  }

  lemma RunAnswer(store: Store, answers: seq<Answer>, n: nat)
    requires n < |answers|
    ensures Run(store, AnswerEvents(answers[..n + 1]))
         == Apply(Run(store, AnswerEvents(answers[..n])), Listed(answers[n].utxos, answers[n].now))
  {
    var events := AnswerEvents(answers[..n + 1]);
    assert events[..|events| - 1] == AnswerEvents(answers[..n]);
  }

  lemma {:induction false} RunConcat(store: Store, first: seq<Event>, more: seq<Event>)
    ensures Run(Run(store, first), more) == Run(store, first + more)
  {
    RunLast(Run(store, first), more);
    RunLast(store, first + more);
    hide Run, Apply;
    if more == [] {
      assert first + more == first;
    } else {
      var last := |more| - 1;
      RunConcat(store, first, more[..last]);
      assert (first + more)[..|first + more| - 1] == first + more[..last];
    }
  }

  lemma RunLast(store: Store, events: seq<Event>)
    ensures Run(store, events) == if events == [] then store else Apply(Run(store, events[..|events| - 1]), events[|events| - 1])
  {
  }

  /**
   Consecutive sends use disjoint inputs. `first` are the outpoints of a broadcast at `t`; after any
   events, a second send asks for `answers` and takes coins of the last one.
   */
  lemma ConsecutiveSendsDisjoint(store: Store, first: seq<string>, t: int, events: seq<Event>, answers: seq<Answer>, picked: seq<Utxo>, u: LightUtxo)
    requires answers != []
    requires Guarded(store, first, t, events + AnswerEvents(answers[..|answers| - 1]), answers[|answers| - 1].now)
    requires forall k :: k in first ==> NeverRelisted(events + AnswerEvents(answers), k)
    requires u in Reselect(Offered(Run(AfterSave(store, first, t), events), answers), picked)
    ensures OutpointKey(u) !in first
  {
    hide Guarded, NeverRelisted, AfterSave, SpendableUtxos, Reselect, Run;
    var n := |answers| - 1;
    var marked, last := AfterSave(store, first, t), answers[n];
    var asked := events + AnswerEvents(answers[..n]);
    assert answers[..n + 1] == answers;
    RunAnswer(Run(marked, events), answers, n);
    RunConcat(marked, events, AnswerEvents(answers[..n]));
    assert Offered(Run(marked, events), answers) == NextSpendable(store, first, t, asked, last.utxos, last.now);
    ReselectedListed(Offered(Run(marked, events), answers), picked, u);
    if OutpointKey(u) in first {
      assert events + AnswerEvents(answers) == asked + [Listed(last.utxos, last.now)];
      SpentNeverSelected(store, first, t, asked, last.utxos, last.now, u);
    }
  }
}
