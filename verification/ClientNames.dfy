/**
 The names under which plugins are registered (src/tmx/TmxCore/src/Plugin.cpp): one set shared by all
 connections. A name is reserved under a lock, committed after the database has answered, and given
 back when the plugin that committed it is destroyed.
 */
module ClientNames {
  import opened Wrappers

  // ---------- one plugin and the shared set ----------

  /** The name in mInfo, empty before the first registration, and one reserved but not yet committed. */
  datatype Holder = Holder(name: string, pending: Option<string>)

  datatype View = View(names: set<string>, holder: Holder)

  function Reserved(v: View, name: string): View {
    if name == "" || name in v.names then v
    else View(v.names + {name}, v.holder.(pending := Some(name)))
  }

  function Committed(h: Holder): Holder {
    Holder(if h.pending.Some? then h.pending.value else h.name, None)
  }

  class Names {
    var names: set<string>

    constructor ()
      ensures names == {}
    {
      names := {};
    }
  }

  /** A status error is raised after the commit. */
  datatype Registration = Registered | EmptyName | DuplicateName | DatabaseError | StatusError

  class Plugin {
    const shared: Names
    var name: string
    var registered: bool

    constructor (shared: Names)
      ensures this.shared == shared && name == "" && !registered
    {
      this.shared := shared;
      name, registered := "", false;
    }

    /** The locked section. */
    method Reserve(name: string) returns (unique: bool)
      requires name != ""
      modifies shared
      ensures unique == (name !in old(shared.names))
      ensures View(shared.names, Holder(this.name, if unique then Some(name) else None))
           == Reserved(View(old(shared.names), Holder(this.name, None)), name)
    {
      unique := false;
      if name !in shared.names {
        unique := true;
        shared.names := shared.names + {name};
      }
    }

    /** What the database answers is an input. */
    method RegisterPlugin(name: string, databaseAccepts: bool, statusStored: bool) returns (r: Registration)
      modifies this, shared
      ensures r == if name == "" then EmptyName
                   else if name in old(shared.names) then DuplicateName
                   else if !databaseAccepts then DatabaseError
                   else if statusStored then Registered
                   else StatusError
      ensures r in {Registered, StatusError} ==> registered && this.name == name
      ensures r !in {Registered, StatusError} ==> registered == old(registered) && this.name == old(this.name)
      ensures r in {Registered, StatusError, DatabaseError} ==> shared.names == old(shared.names) + {name}
      ensures r in {EmptyName, DuplicateName} ==> shared.names == old(shared.names)
    {
      if name == "" {
        return EmptyName;
      }
      var isUniqueName := Reserve(name);
      if !isUniqueName {
        return DuplicateName;
      }
      if !databaseAccepts {
        return DatabaseError;
      }
      this.name := name;
      registered := true;
      if !statusStored {
        return StatusError;
      }
      return Registered;
    }

    method Destroy()
      modifies shared
      ensures shared.names == old(shared.names) - {name}
    {
      shared.names := shared.names - {name};
    }
  }

  // ---------- all plugins, in any interleaving ----------

  datatype State = State(names: set<string>, live: map<nat, Holder>)

  /** A registration is a reservation, which may be refused, and then a commit or a database failure. */
  datatype Step =
    | Create(p: nat)
    | Reserve(p: nat, name: string)
    | Commit(p: nat)
    | Fail(p: nat)
    | Destroy(p: nat)

  /** A connection's threads are joined before its plugin is destroyed, so nothing is pending then. */
  ghost predicate Enabled(s: State, step: Step) {
    if step.Create? then step.p !in s.live
    else step.p in s.live && (s.live[step.p].pending.Some? <==> step.Commit? || step.Fail?)
  }

  ghost function Apply(s: State, step: Step): State
    requires Enabled(s, step)
  {
    match step
    case Create(p) => s.(live := s.live[p := Holder("", None)])
    case Reserve(p, name) =>
      var v := Reserved(View(s.names, s.live[p]), name);
      State(v.names, s.live[p := v.holder])
    case Commit(p) => s.(live := s.live[p := Committed(s.live[p])])
    case Fail(p) => s.(live := s.live[p := s.live[p].(pending := None)])
    case Destroy(p) => State(s.names - {s.live[p].name}, s.live - {p})
  }

  const START := State({}, map[])

  ghost predicate IsRun(run: seq<Step>)
    decreases |run|, 0
  {
    run == [] ||
    (var n := |run| - 1;
     IsRun(run[..n]) && Enabled(Exec(run[..n]), run[n]))
  }

  ghost function Exec(run: seq<Step>): State
    requires IsRun(run)
    decreases |run|, 1
  {
    if run == [] then START else Apply(Exec(run[..|run| - 1]), run[|run| - 1])
  }

  // ---------- names nobody will give back ----------

  /** A failed registration leaves its reservation behind; a new one leaves the old name behind. */
  ghost function Dropped(s: State, step: Step): set<string>
    requires Enabled(s, step)
  {
    match step
    case Fail(p) => {s.live[p].pending.value}
    case Commit(p) => if s.live[p].name == "" then {} else {s.live[p].name}
    case _ => {}
  }

  ghost function Orphans(run: seq<Step>): set<string>
    requires IsRun(run)
  {
    if run == [] then {}
    else Orphans(run[..|run| - 1]) + Dropped(Exec(run[..|run| - 1]), run[|run| - 1])
  }

  ghost predicate Uses(h: Holder, n: string) {
    (n != "" && h.name == n) || h.pending == Some(n)
  }

  ghost predicate InUse(live: map<nat, Holder>, n: string) {
    exists p :: p in live && Uses(live[p], n)
  }

  /** Every name in the set is used by one live plugin, in one way, or is an orphan. */
  ghost predicate Accounted(s: State, orphans: set<string>) {
    "" !in s.names &&
    (forall n :: n in s.names ==> n in orphans || InUse(s.live, n)) &&
    (forall n :: n in orphans ==> n in s.names && !InUse(s.live, n)) &&
    (forall p, n :: p in s.live && Uses(s.live[p], n) ==> n in s.names) &&
    (forall p :: p in s.live ==> s.live[p].pending != Some(s.live[p].name)) &&
    forall p, q, n :: p in s.live && q in s.live && Uses(s.live[p], n) && Uses(s.live[q], n) ==> p == q
  }

  lemma AccountedReserve(s: State, o: set<string>, p: nat, name: string)
    requires Accounted(s, o) && Enabled(s, Reserve(p, name))
    ensures Accounted(Apply(s, Reserve(p, name)), o)
  {
    var t := Apply(s, Reserve(p, name));
    if name == "" || name in s.names {
      assert t.live == s.live;
    } else {
      assert Uses(t.live[p], name);
      forall n | n in s.names && n !in o ensures InUse(t.live, n) {
        var q :| q in s.live && Uses(s.live[q], n);
        assert Uses(t.live[q], n);
      }
    }
  }

  lemma AccountedFail(s: State, o: set<string>, p: nat)
    requires Accounted(s, o) && Enabled(s, Fail(p))
    ensures Accounted(Apply(s, Fail(p)), o + Dropped(s, Fail(p)))
  {
    var t, h := Apply(s, Fail(p)), s.live[p];
    assert Uses(h, h.pending.value);
    forall n | n in s.names && n !in o && n != h.pending.value ensures InUse(t.live, n) {
      var q :| q in s.live && Uses(s.live[q], n);
      assert Uses(t.live[q], n);
    }
  }

  lemma AccountedCommit(s: State, o: set<string>, p: nat)
    requires Accounted(s, o) && Enabled(s, Commit(p))
    ensures Accounted(Apply(s, Commit(p)), o + Dropped(s, Commit(p)))
  {
    var t, h := Apply(s, Commit(p)), s.live[p];
    assert Uses(h, h.pending.value);
    assert h.name != "" ==> Uses(h, h.name);
    forall n | n in s.names && n !in o && n != h.name ensures InUse(t.live, n) {
      var q :| q in s.live && Uses(s.live[q], n);
      assert Uses(t.live[q], n);
    }
  }

  lemma AccountedDestroy(s: State, o: set<string>, p: nat)
    requires Accounted(s, o) && Enabled(s, Destroy(p))
    ensures Accounted(Apply(s, Destroy(p)), o)
  {
    var t := Apply(s, Destroy(p));
    assert s.live[p].name != "" ==> Uses(s.live[p], s.live[p].name);
    forall n | n in t.names && n !in o ensures InUse(t.live, n) {
      var q :| q in s.live && Uses(s.live[q], n);
      assert q in t.live;
    }
  }

  lemma AccountedCreate(s: State, o: set<string>, p: nat)
    requires Accounted(s, o) && Enabled(s, Create(p))
    ensures Accounted(Apply(s, Create(p)), o)
  {
    var t := Apply(s, Create(p));
    forall n | n in s.names && n !in o ensures InUse(t.live, n) {
      var q :| q in s.live && Uses(s.live[q], n);
      assert Uses(t.live[q], n);
    }
  }

  lemma AccountedStep(s: State, o: set<string>, step: Step)
    requires Accounted(s, o) && Enabled(s, step)
    ensures Accounted(Apply(s, step), o + Dropped(s, step))
  {
    assert o + {} == o;
    match step
    case Create(p) => AccountedCreate(s, o, p);
    case Reserve(p, name) => AccountedReserve(s, o, p, name);
    case Destroy(p) => AccountedDestroy(s, o, p);
    case Commit(p) => AccountedCommit(s, o, p);
    case Fail(p) => AccountedFail(s, o, p);
  }

  lemma {:induction false} NamesAreAccountedFor(run: seq<Step>)
    requires IsRun(run)
    ensures Accounted(Exec(run), Orphans(run))
  {
    if run != [] {
      var some := run[..|run| - 1];
      NamesAreAccountedFor(some);
      AccountedStep(Exec(some), Orphans(some), run[|run| - 1]);
    }
  }

  /** No two live plugins are registered under one name. */
  lemma NoTwoPluginsShareAName(run: seq<Step>, p: nat, q: nat)
    requires IsRun(run)
    requires p in Exec(run).live && q in Exec(run).live && p != q
    requires Exec(run).live[p].name != ""
    ensures Exec(run).live[p].name != Exec(run).live[q].name
  {
    NamesAreAccountedFor(run);
    var live := Exec(run).live;
    if live[p].name == live[q].name {
      assert Uses(live[p], live[p].name) && Uses(live[q], live[p].name);
    }
  }

  /** The set is exactly the names in use and the orphans, so that is what a reservation is refused for. */
  lemma RefusedExactlyWhen(run: seq<Step>, p: nat, name: string)
    requires IsRun(run) && Enabled(Exec(run), Reserve(p, name))
    ensures Apply(Exec(run), Reserve(p, name)) == Exec(run) <==>
            name == "" || name in Orphans(run) || InUse(Exec(run).live, name)
  {
    NamesAreAccountedFor(run);
    var s := Exec(run);
    if name == "" || name in s.names {
      assert s.live[p := s.live[p]] == s.live;
    } else {
      assert name in Apply(s, Reserve(p, name)).names;
    }
  }

  // ---------- how a name leaves ----------

  ghost predicate Extends(run: seq<Step>, more: seq<Step>) {
    |run| <= |more| && more[..|run|] == run
  }

  /** The plugin destroyed by step k of the run held this name. */
  ghost predicate GivenBack(run: seq<Step>, k: nat, name: string)
    requires IsRun(run) && k < |run|
  {
    IsRun(run[..k]) && run[k].Destroy? && run[k].p in Exec(run[..k]).live && Exec(run[..k]).live[run[k].p].name == name
  }

  lemma {:induction false} PrefixIsRun(run: seq<Step>, k: nat)
    requires IsRun(run) && k <= |run|
    ensures IsRun(run[..k])
    decreases |run|
  {
    if k < |run| {
      PrefixIsRun(run[..|run| - 1], k);
      assert run[..|run| - 1][..k] == run[..k];
    } else {
      assert run[..k] == run;
    }
  }

  /** A name that was in the set and is not any more was given back by a plugin that had committed it. */
  lemma {:induction false} NameLeavesWithItsHolder(run: seq<Step>, more: seq<Step>, name: string) returns (k: nat)
    requires IsRun(run) && IsRun(more) && Extends(run, more)
    requires name in Exec(run).names && name !in Exec(more).names
    ensures |run| <= k < |more| && GivenBack(more, k, name)
    decreases |more|
  {
    assert |more| == |run| ==> more == run;
    var n := |more| - 1;
    var most := more[..n];
    assert most[..|run|] == run;
    if name in Exec(most).names {
      k := n;
    } else {
      k := NameLeavesWithItsHolder(run, most, name);
      assert most[..k] == more[..k];
    }
  }

  /** An orphaned name is refused to everyone for ever. */
  lemma {:induction false} OrphansStay(run: seq<Step>, more: seq<Step>)
    requires IsRun(run) && IsRun(more) && Extends(run, more)
    ensures Orphans(run) <= Orphans(more) <= Exec(more).names
    decreases |more|
  {
    NamesAreAccountedFor(more);
    if |more| == |run| {
      assert more == run;
    } else {
      var most := more[..|more| - 1];
      assert most[..|run|] == run;
      OrphansStay(run, most);
    }
  }

  /** A name that is neither in use nor an orphan can be taken by any new plugin, and given back by it. */
  lemma AFreeNameCanBeTaken(run: seq<Step>, p: nat, name: string)
    requires IsRun(run) && p !in Exec(run).live && name != "" && name !in Orphans(run) && !InUse(Exec(run).live, name)
    ensures var taken := run + [Create(p)] + [Reserve(p, name)] + [Commit(p)];
            && IsRun(taken) && p in Exec(taken).live && Exec(taken).live[p].name == name && name in Exec(taken).names
            && IsRun(taken + [Destroy(p)]) && name !in Exec(taken + [Destroy(p)]).names
  {
    NamesAreAccountedFor(run);
    var a := run + [Create(p)];
    RunNext(run, Create(p));
    RunNext(a, Reserve(p, name));
    var b := a + [Reserve(p, name)];
    RunNext(b, Commit(p));
    RunNext(b + [Commit(p)], Destroy(p));
  }

  lemma RunNext(run: seq<Step>, step: Step)
    requires IsRun(run) && Enabled(Exec(run), step)
    ensures IsRun(run + [step]) && Exec(run + [step]) == Apply(Exec(run), step)
  {
    assert (run + [step])[..|run|] == run;
  }
}
