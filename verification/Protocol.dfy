/**
 A plugin's client library (src/tmx/TmxApi/tmx/IvpPlugin.c) and the core's end of its socket
 (src/tmx/TmxCore/src/PluginConnection.cpp, Plugin.cpp), joined by two FIFO channels.

 Each handler is one step: the races inside one handler are not modelled.
 */
module ClientCoreProtocol {
  import opened Wrappers
  import opened Sets

  // ---------- filters ----------

  /** A filter entry as the client builds it: any JSON object. */
  datatype RawEntry = RawEntry(typ: Option<string>, subtype: Option<string>, flagmask: nat)

  type Filter = Option<seq<RawEntry>>  // None is the NULL filter

  datatype RouterEntry = RouterEntry(typ: string, subtype: string, flagmask: nat)

  /** The filter list the router must hold for a client filter: entries without a type do not count. */
  function RouterEntries(f: Filter): seq<RouterEntry> {
    if f == None then [] else Typed(f.value)
  }

  function Typed(es: seq<RawEntry>): seq<RouterEntry> {
    if es == [] then []
    else (if es[0].typ.Some?
          then [RouterEntry(es[0].typ.value, if es[0].subtype.Some? then es[0].subtype.value else "", es[0].flagmask)]
          else [])
         + Typed(es[1..])
  }

  lemma {:induction false} TypedAppend(es: seq<RawEntry>, e: RawEntry)
    ensures Typed(es + [e]) == Typed(es) + Typed([e])
  {
    if es == [] {
      assert es + [e] == [e];
    } else {
      var rest, first := es[1..], Typed([es[0]]);
      assert (es + [e])[0] == es[0] && (es + [e])[1..] == rest + [e] && [es[0]][1..] == [];
      TypedAppend(rest, e);
      assert Typed(es) == first + Typed(rest) && Typed(es + [e]) == first + Typed(rest + [e]);
      assert first + (Typed(rest) + Typed([e])) == (first + Typed(rest)) + Typed([e]);
    }
  }

  ghost function TypedAt(es: seq<RawEntry>): set<nat> {
    set i: nat | i < |es| && es[i].typ.Some?
  }

  /** Entry j of the list has type, subtype and mask of raw entry at[j], and at lists those with a type. */
  ghost predicate IsSelection(es: seq<RawEntry>, entries: seq<RouterEntry>, at: seq<nat>) {
    |at| == |entries| && Lists(at, TypedAt(es)) &&
    forall j :: 0 <= j < |at| ==>
      at[j] < |es| && es[at[j]].typ == Some(entries[j].typ) && es[at[j]].flagmask == entries[j].flagmask &&
      (if es[at[j]].subtype == None then entries[j].subtype == "" else es[at[j]].subtype == Some(entries[j].subtype))
  }

  /** The router's list holds what the client's filter says. */
  ghost predicate IsListOf(entries: seq<RouterEntry>, f: Filter) {
    if f == None then entries == [] else exists at :: IsSelection(f.value, entries, at)
  }

  lemma {:induction false} TypedIsSelection(es: seq<RawEntry>) returns (at: seq<nat>)
    ensures IsSelection(es, Typed(es), at)
  {
    if es == [] {
      at := [];
    } else {
      var n := |es| - 1;
      var some, e := es[..n], es[n];
      assert es == some + [e];
      var before := TypedIsSelection(some);
      TypedAppend(some, e);
      assert [e][1..] == [];
      if e.typ.Some? {
        at := before + [n];
        ListsNext(before, TypedAt(some), n);
        assert TypedAt(es) == TypedAt(some) + {n};
      } else {
        at := before;
        assert TypedAt(es) == TypedAt(some);
        assert Typed(some) + [] == Typed(some);
      }
    }
  }

  lemma RouterEntriesAreListed(f: Filter)
    ensures IsListOf(RouterEntries(f), f)
  {
    if f != None { var at := TypedIsSelection(f.value); }
  }

  /** A filter has one list. */
  lemma OneListOnly(f: Filter, a: seq<RouterEntry>, b: seq<RouterEntry>)
    requires IsListOf(a, f) && IsListOf(b, f)
    ensures a == b
  {
    if f != None {
      var x :| IsSelection(f.value, a, x);
      var y :| IsSelection(f.value, b, y);
      ListsOnce(x, y, TypedAt(f.value));
    }
  }

  /** The loop of processSubscribeMessage. */
  method ReadFilterEntries(f: Filter) returns (entries: seq<RouterEntry>)
    ensures entries == RouterEntries(f) && IsListOf(entries, f)
  {
    entries := [];
    if f != None {
      var i := 0;
      while i < |f.value|
        invariant 0 <= i <= |f.value|
        invariant entries == Typed(f.value[..i])
      {
        var e := f.value[i];
        TypedAppend(f.value[..i], e);
        assert f.value[..i + 1] == f.value[..i] + [e] && [e][1..] == [];
        if e.typ.Some? {
          entries := entries + [RouterEntry(e.typ.value, if e.subtype.Some? then e.subtype.value else "", e.flagmask)];
        }
        i := i + 1;
      }
      assert f.value[..i] == f.value;
    }
    RouterEntriesAreListed(f);
  }

  // ---------- configuration ----------

  /** A row of the core's configuration cache or of the database. */
  datatype Entry = Entry(value: string, defaultValue: string)

  /** An item of the client's collection: the manifest default, and a value once one arrived. */
  datatype Item = Item(defaultValue: string, value: Option<string>)

  type Cache = map<string, Entry>
  type Config = map<string, Item>
  datatype Pair = Pair(key: string, value: string)

  /** What the client's getter returns. */
  function Effective(it: Item): string {
    if it.value.Some? then it.value.value else it.defaultValue
  }

  function Updated(c: Config, p: Pair): Config {
    if p.key in c then c[p.key := c[p.key].(value := Some(p.value))] else c
  }

  function UpdatedAll(c: Config, items: seq<Pair>): (r: Config)
    ensures r.Keys == c.Keys
    ensures forall k :: k in c ==> r[k].defaultValue == c[k].defaultValue
    decreases |items|
  {
    if items == [] then c else UpdatedAll(Updated(c, items[0]), items[1..])
  }

  ghost predicate DistinctKeys(items: seq<Pair>) {
    forall i, j :: 0 <= i < j < |items| ==> items[i].key != items[j].key
  }

  /** The registration reply lists exactly the entries that differ from their default, once each. */
  ghost predicate IsReply(items: seq<Pair>, cache: Cache) {
    && DistinctKeys(items)
    && (forall i :: 0 <= i < |items| ==>
          var p := items[i]; p.key in cache && cache[p.key].value == p.value && p.value != cache[p.key].defaultValue)
    && (forall k :: k in cache && cache[k].value != cache[k].defaultValue ==>
          exists i :: 0 <= i < |items| && items[i].key == k)
  }

  method RegistrationReply(cache: Cache) returns (items: seq<Pair>)
    ensures IsReply(items, cache)
  {
    items := [];
    var todo := cache.Keys;
    while todo != {}
      invariant todo <= cache.Keys && DistinctKeys(items)
      invariant forall i :: 0 <= i < |items| ==>
        var p := items[i]; p.key in cache && p.key !in todo && cache[p.key].value == p.value && p.value != cache[p.key].defaultValue
      invariant forall k :: k in cache && k !in todo && cache[k].value != cache[k].defaultValue ==>
        exists i :: 0 <= i < |items| && items[i].key == k
    {
      var k :| k in todo;
      todo := todo - {k};
      if cache[k].value != cache[k].defaultValue {
        ghost var before := items;
        items := items + [Pair(k, cache[k].value)];
        assert items[|before|].key == k;
        assert forall i :: 0 <= i < |before| ==> items[i] == before[i];
      }
    }
  }

  /** The value of k after some items: that of an item for k, if there is one and all of them agree. */
  lemma {:induction false} EffectiveAfter(c: Config, items: seq<Pair>, k: string, v: string)
    requires k in c
    requires forall i :: 0 <= i < |items| && items[i].key == k ==> items[i].value == v
    ensures (exists i :: 0 <= i < |items| && items[i].key == k) ==> Effective(UpdatedAll(c, items)[k]) == v
    ensures (forall i :: 0 <= i < |items| ==> items[i].key != k) ==> UpdatedAll(c, items)[k] == c[k]
    ensures Effective(c[k]) == v ==> Effective(UpdatedAll(c, items)[k]) == v
    decreases |items|
  {
    if items != [] {
      EffectiveAfter(Updated(c, items[0]), items[1..], k, v);
      if j :| 0 <= j < |items| && items[j].key == k {
        if j > 0 { assert items[1..][j - 1].key == k; }
      }
    }
  }

  /**
   After a registration reply the client agrees with the core on a key exactly when the entry was
   sent or the client held its value already; with a fresh client that means equal defaults.
   */
  lemma ReplyAgreesExactlyWhen(c: Config, cache: Cache, items: seq<Pair>, k: string)
    requires k in c && k in cache && IsReply(items, cache)
    ensures Effective(UpdatedAll(c, items)[k]) == cache[k].value
            <==> cache[k].value != cache[k].defaultValue || Effective(c[k]) == cache[k].value
  {
    EffectiveAfter(c, items, k, cache[k].value);
    if cache[k].value == cache[k].defaultValue {
      assert forall i :: 0 <= i < |items| ==> items[i].key != k;
    }
  }

  /** A reconnecting client that holds an old value misses that the core went back to the default. */
  lemma ReconnectCanDisagree()
    ensures var c: Config := map["k" := Item("d", Some("old"))]; var cache := map["k" := Entry("d", "d")];
            IsReply([], cache) && Effective(UpdatedAll(c, [])["k"]) != cache["k"].value
  {
  }

  // ---------- the database side of a registration ----------

  /** initializePluginConfigParameters: old values stay, defaults are refreshed, other keys go. */
  function Initialized(own: Cache, manifest: map<string, string>): Cache {
    map k | k in manifest :: Entry(if k in own then own[k].value else manifest[k], manifest[k])
  }

  /** getPluginConfigParameters: the plugin's rows and the global ones; on a shared key either may come last. */
  ghost predicate IsRead(cache: Cache, own: Cache, global: Cache) {
    && cache.Keys == own.Keys + global.Keys
    && (forall k :: k in cache ==> (k in own && cache[k] == own[k]) || (k in global && cache[k] == global[k]))
  }

  ghost predicate SameDefaults(c: Config, cache: Cache) {
    forall k :: k in c ==> k in cache && cache[k].defaultValue == c[k].defaultValue
  }

  /** A registration keeps stored values, brings in the manifest's defaults, and drops what the manifest has not. */
  lemma InitializationKeepsValues(own: Cache, manifest: map<string, string>, next: map<string, string>, k: string)
    ensures k in Initialized(own, manifest) <==> k in manifest
    ensures k in manifest ==> Initialized(own, manifest)[k].defaultValue == manifest[k]
    ensures k in own && k in manifest ==> Initialized(own, manifest)[k].value == own[k].value
    ensures k !in own && k in manifest ==> Initialized(own, manifest)[k].value == manifest[k]
    ensures k in manifest && k in next ==>
              Initialized(Initialized(own, manifest), next)[k].value == Initialized(own, manifest)[k].value
    ensures Initialized(Initialized(own, manifest), manifest) == Initialized(own, manifest)
  {
  }

  /** Client and core start from the same defaults when no global parameter bears a manifest key. */
  lemma RegistrationSharesDefaults(c: Config, own: Cache, global: Cache, cache: Cache)
    requires IsRead(cache, Initialized(own, map k | k in c :: c[k].defaultValue), global)
    requires c.Keys !! global.Keys
    ensures SameDefaults(c, cache)
  {
    var manifest := map k | k in c :: c[k].defaultValue;
    assert manifest.Keys == c.Keys;
    assert Initialized(own, manifest).Keys == manifest.Keys;
  }

  // ---------- the configuration poll ----------

  ghost function ChangedKeys(cache: Cache, db: Cache): set<string> {
    set k | k in db && k in cache && db[k].value != cache[k].value
  }

  ghost function NewKeys(cache: Cache, db: Cache): set<string> {
    db.Keys - cache.Keys
  }

  ghost function KeysOf(notes: seq<Pair>): set<string> {
    set i | 0 <= i < |notes| :: notes[i].key
  }

  /** The calls of onConfigChanged: once for each of the keys, with the database's value. */
  ghost predicate Announces(notes: seq<Pair>, keys: set<string>, db: Cache) {
    && KeysOf(notes) == keys
    && DistinctKeys(notes)
    && (forall i :: 0 <= i < |notes| ==> notes[i].key in db && notes[i].value == db[notes[i].key].value)
  }

  /** What one poll must do to the cache and whom it must tell. */
  ghost predicate IsPoll(cache: Cache, db: Cache, cache': Cache, notes: seq<Pair>) {
    && Announces(notes, ChangedKeys(cache, db) + NewKeys(cache, db), db)
    && cache'.Keys == cache.Keys + db.Keys
    && (forall k :: k in ChangedKeys(cache, db) + NewKeys(cache, db) ==> cache'[k] == db[k])
    && (forall k :: k in cache && k !in ChangedKeys(cache, db) ==> cache'[k] == cache[k])
  }

  /** The cache agrees with the database on every database key, and silence means nothing changed. */
  lemma PollAgrees(cache: Cache, db: Cache, cache': Cache, notes: seq<Pair>)
    requires IsPoll(cache, db, cache', notes)
    ensures forall k :: k in db ==> k in cache' && cache'[k].value == db[k].value
    ensures forall k :: k in cache && k !in db ==> cache'[k] == cache[k]
    ensures notes == [] <==> forall k :: k in db ==> k in cache && cache[k].value == db[k].value
  {
    forall k | k in db ensures k in cache' && cache'[k].value == db[k].value {
      assert k in cache'.Keys;
    }
    if notes != [] {
      assert notes[0].key in KeysOf(notes);
    } else {
      assert KeysOf(notes) == {};
      forall k | k in db ensures k in cache && cache[k].value == db[k].value {
        assert k !in ChangedKeys(cache, db) && k !in NewKeys(cache, db);
      }
    }
  }

  lemma Announced(notes: seq<Pair>, keys: set<string>, db: Cache, k: string)
    requires Announces(notes, keys, db) && k !in keys && k in db
    ensures Announces(notes + [Pair(k, db[k].value)], keys + {k}, db)
  {
    var notes' := notes + [Pair(k, db[k].value)];
    assert forall i :: 0 <= i < |notes| ==> notes[i].key in KeysOf(notes) && notes'[i] == notes[i];
    assert notes'[|notes|].key == k;
    forall j ensures j in KeysOf(notes') <==> j in keys + {k} {
      if j in keys {
        var i :| 0 <= i < |notes| && notes[i].key == j;
        assert notes'[i].key == j;
      }
    }
  }

  lemma AnnouncedBoth(known: seq<Pair>, added: seq<Pair>, k1: set<string>, k2: set<string>, db: Cache)
    requires Announces(known, k1, db) && Announces(added, k2, db) && k1 !! k2
    ensures Announces(known + added, k1 + k2, db)
  {
    var all := known + added;
    assert forall i :: 0 <= i < |known| ==> known[i].key in KeysOf(known) && all[i] == known[i];
    assert forall i :: 0 <= i < |added| ==> added[i].key in KeysOf(added) && all[|known| + i] == added[i];
    forall j ensures j in KeysOf(all) <==> j in k1 + k2 {
      if j in k1 {
        var i :| 0 <= i < |known| && known[i].key == j;
        assert all[i].key == j;
      } else if j in k2 {
        var i :| 0 <= i < |added| && added[i].key == j;
        assert all[|known| + i].key == j;
      }
    }
  }

  class ConfigMonitor {
    var values: Cache  // mConfigValues

    constructor (cache: Cache)
      ensures values == cache
    {
      values := cache;
    }

    /** The first loop of a poll: the keys already cached; handled ones leave the working map. */
    method UpdateKnown(db: Cache) returns (work: Cache, notes: seq<Pair>)
      modifies this
      ensures values.Keys == old(values).Keys
      ensures forall k :: k in values ==>
                values[k] == if k in ChangedKeys(old(values), db) then db[k] else old(values)[k]
      ensures work == db - old(values).Keys
      ensures Announces(notes, ChangedKeys(old(values), db), db)
    {
      work, notes := db, [];
      var todo := values.Keys;
      ghost var changed := ChangedKeys(values, db);
      while todo != {}
        invariant todo <= values.Keys && values.Keys == old(values).Keys
        invariant forall k :: k in values ==>
          values[k] == if k in changed - todo then db[k] else old(values)[k]
        invariant work.Keys == db.Keys - (old(values).Keys - todo)
        invariant forall k :: k in work ==> work[k] == db[k]
        invariant Announces(notes, changed - todo, db)
      {
        var k :| k in todo;
        if k in work {
          if work[k].value != values[k].value {
            values := values[k := work[k]];
            Announced(notes, changed - todo, db, k);
            assert changed - (todo - {k}) == changed - todo + {k};
            notes := notes + [Pair(k, work[k].value)];
          } else {
            assert changed - (todo - {k}) == changed - todo;
          }
          work := work - {k};
        } else {
          assert changed - (todo - {k}) == changed - todo;
        }
        todo := todo - {k};
      }
      assert changed - todo == changed;
    }

    /** The second loop: what is left of the working map is new. */
    method AddNew(work: Cache) returns (notes: seq<Pair>)
      requires work.Keys !! values.Keys
      modifies this
      ensures values == old(values) + work
      ensures Announces(notes, work.Keys, work)
    {
      notes := [];
      var todo := work.Keys;
      while todo != {}
        invariant todo <= work.Keys
        invariant values.Keys == old(values).Keys + (work.Keys - todo)
        invariant forall k :: k in values ==> values[k] == if k in work then work[k] else old(values)[k]
        invariant Announces(notes, work.Keys - todo, work)
      {
        var k :| k in todo;
        values := values[k := work[k]];
        Announced(notes, work.Keys - todo, work, k);
        assert work.Keys - (todo - {k}) == work.Keys - todo + {k};
        notes := notes + [Pair(k, work[k].value)];
        todo := todo - {k};
      }
      assert work.Keys - todo == work.Keys;
    }

    method Poll(db: Cache) returns (notes: seq<Pair>)
      modifies this
      ensures IsPoll(old(values), db, values, notes)
    {
      var work, known := UpdateKnown(db);
      var added := AddNew(work);
      assert work.Keys == NewKeys(old(values), db);
      assert Announces(added, work.Keys, db);
      AnnouncedBoth(known, added, ChangedKeys(old(values), db), work.Keys, db);
      notes := known + added;
    }
  }
}
