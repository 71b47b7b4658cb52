/**
 The browser's walk over a plugin's JSON description with an explicit stack
 (web/js/tmx.common.library.js, handleListMessage).
 */
module JsonWalk {

  /** Arrays are objects whose keys are their indices; the fields are in Object.keys order. */
  datatype Json = Leaf(value: string) | Null | Object(fields: seq<Field>)
  datatype Field = Field(key: string, child: Json)

  /** A call of updateListObject, or the TypeError that Object.keys(null) raises. */
  datatype Report = Report(path: string, value: string) | Crash

  const ARROW := "->"
  const UNDEFINED := "undefined->"

  // ---------- the plain recursive traversal ----------

  function Plain(j: Json, name: string, prefix: string): seq<Report>
    decreases j, 1, 0
  {
    match j
    case Leaf(v) => [Report(prefix + name, v)]
    case Null => [Crash]
    case Object(fields) => PlainFields(fields, prefix + name + ARROW)
  }

  function PlainFields(fields: seq<Field>, prefix: string): seq<Report>
    decreases fields, 0, |fields|
  {
    if fields == [] then []
    else Plain(fields[0].child, fields[0].key, prefix) + PlainFields(fields[1..], prefix)
  }

  function PlainRoot(j: Json): seq<Report> {
    match j
    case Leaf(_) => []
    case Null => [Crash]
    case Object(fields) => PlainFields(fields, "")
  }

  // ---------- what the walk does to the path ----------

  predicate OccursAt(text: string, pattern: string, i: nat) {
    i + |pattern| <= |text| && text[i..i + |pattern|] == pattern
  }

  /** The position of the first occurrence, or the length of the text. */
  function FirstAt(text: string, pattern: string, from: nat): (r: nat)
    requires from <= |text|
    ensures from <= r <= |text|
    ensures r < |text| ==> OccursAt(text, pattern, r)
    ensures forall i :: from <= i < r ==> !OccursAt(text, pattern, i)
    decreases |text| - from
  {
    if from == |text| || OccursAt(text, pattern, from) then from else FirstAt(text, pattern, from + 1)
  }

  /**
   On the way back up the saved prefix goes through replace(items[i] + "->", ""), where items[i]
   is beyond the last key: the pattern is always the text "undefined->".
   */
  function Restored(prefix: string): string {
    var i := FirstAt(prefix, UNDEFINED, 0);
    if i < |prefix| then prefix[..i] + prefix[i + |UNDEFINED|..] else prefix
  }

  /** The traversal as the walk performs it: after each child object the prefix is restored. */
  function Walked(j: Json, name: string, prefix: string): seq<Report>
    decreases j, 1, 0
  {
    match j
    case Leaf(v) => [Report(prefix + name, v)]
    case Null => [Crash]
    case Object(fields) => WalkedFields(fields, prefix + name + ARROW)
  }

  function WalkedFields(fields: seq<Field>, prefix: string): seq<Report>
    decreases fields, 0, |fields|
  {
    if fields == [] then []
    else
      Walked(fields[0].child, fields[0].key, prefix)
      + WalkedFields(fields[1..], if fields[0].child.Leaf? then prefix else Restored(prefix))
  }

  function WalkedRoot(j: Json): seq<Report> {
    match j
    case Leaf(_) => []
    case Null => [Crash]
    case Object(fields) => WalkedFields(fields, "")
  }

  predicate NoCrash(rs: seq<Report>) {
    forall i :: 0 <= i < |rs| ==> !rs[i].Crash?
  }

  /** The reports made before the first crash. */
  function UntilCrash(rs: seq<Report>): seq<Report> {
    if rs == [] || rs[0].Crash? then [] else [rs[0]] + UntilCrash(rs[1..])
  }

  // ---------- the walk ----------

  datatype Frame = Frame(obj: seq<Field>, pos: nat, prefix: string)

  /** What is still to be reported once the current object is finished. */
  function Above(stack: seq<Frame>): seq<Report>
    decreases |stack|
  {
    if stack == [] then []
    else
      var f := stack[|stack| - 1];
      (if f.pos <= |f.obj| then WalkedFields(f.obj[f.pos..], Restored(f.prefix)) else [])
      + Above(stack[..|stack| - 1])
  }

  /** The size of a tree in nodes: the measure that the walk uses up. */
  function Size(j: Json): nat
    decreases j, 1, 0
  {
    if j.Object? then 1 + SizeOf(j.fields) else 1
  }

  function SizeOf(fields: seq<Field>): nat
    decreases fields, 0, |fields|
  {
    if fields == [] then 0 else 1 + Size(fields[0].child) + SizeOf(fields[1..])
  }

  function SizeAbove(stack: seq<Frame>): nat
    decreases |stack|
  {
    if stack == [] then 0
    else
      var f := stack[|stack| - 1];
      1 + (if f.pos <= |f.obj| then SizeOf(f.obj[f.pos..]) else 0) + SizeAbove(stack[..|stack| - 1])
  }

  lemma {:induction false} CutAppend(a: seq<Report>, b: seq<Report>)
    requires NoCrash(a)
    ensures UntilCrash(a + b) == a + UntilCrash(b)
  {
    if a == [] {
      assert a + b == b;
    } else {
      assert (a + b)[1..] == a[1..] + b;
      CutAppend(a[1..], b);
    }
  }

  lemma NextField(fields: seq<Field>, i: nat, prefix: string)
    requires i < |fields|
    ensures WalkedFields(fields[i..], prefix) ==
            Walked(fields[i].child, fields[i].key, prefix)
            + WalkedFields(fields[i + 1..], if fields[i].child.Leaf? then prefix else Restored(prefix))
    ensures SizeOf(fields[i..]) == 1 + Size(fields[i].child) + SizeOf(fields[i + 1..])
  {
    assert fields[i..][0] == fields[i] && fields[i..][1..] == fields[i + 1..];
  }

  /**
   A child lies strictly inside its parent, so comparing it with the root is comparing identities:
   the walk is back at the root exactly when its stack is empty.
   */
  ghost predicate Nested(root: seq<Field>, stack: seq<Frame>, obj: seq<Field>) {
    && (stack == [] ==> obj == root)
    && (stack != [] ==> stack[0].obj == root && Size(Object(obj)) < Size(Object(root)))
    && (forall i :: 0 <= i < |stack| ==> stack[i].pos <= |stack[i].obj|)
    && (forall i :: 0 < i < |stack| ==> Size(Object(stack[i].obj)) < Size(Object(root)))
  }

  lemma {:induction false} ChildIsSmaller(fields: seq<Field>, i: nat)
    requires i < |fields|
    ensures Size(fields[i].child) < Size(Object(fields))
    decreases |fields|
  {
    if i > 0 { ChildIsSmaller(fields[1..], i - 1); }
  }

  lemma AboveAfterPush(stack: seq<Frame>, f: Frame)
    requires f.pos <= |f.obj|
    ensures Above(stack + [f]) == WalkedFields(f.obj[f.pos..], Restored(f.prefix)) + Above(stack)
    ensures SizeAbove(stack + [f]) == 1 + SizeOf(f.obj[f.pos..]) + SizeAbove(stack)
  {
    assert (stack + [f])[..|stack|] == stack;
  }

  lemma StopsHere(reports: seq<Report>, rest: seq<Report>)
    requires rest != [] && rest[0] == Crash && NoCrash(reports)
    ensures UntilCrash(reports + rest) == reports && Crash in reports + rest
  {
    CutAppend(reports, rest);
    assert (reports + rest)[|reports|] == Crash;
  }

  /** Where the walk stands, and that what it has reported plus what is to come is all there is. */
  datatype Spot = Spot(current: seq<Field>, pos: nat, prefix: string, stack: seq<Frame>)

  ghost predicate OnTheWay(root: seq<Field>, all: seq<Report>, reports: seq<Report>, at: Spot) {
    && at.pos <= |at.current| && Nested(root, at.stack, at.current)
    && all == reports + (WalkedFields(at.current[at.pos..], at.prefix) + Above(at.stack))
    && NoCrash(reports)
  }

  function Work(at: Spot): nat
    requires at.pos <= |at.current|
  {
    SizeOf(at.current[at.pos..]) + SizeAbove(at.stack)
  }

  /** The run of leaves that the for loop reports before it meets an object or the end. */
  method ReportLeaves(current: seq<Field>, pos: nat, prefix: string) returns (i: nat, more: seq<Report>)
    requires pos <= |current|
    ensures pos <= i <= |current| && (i < |current| ==> !current[i].child.Leaf?)
    ensures WalkedFields(current[pos..], prefix) == more + WalkedFields(current[i..], prefix)
    ensures SizeOf(current[i..]) <= SizeOf(current[pos..])
    ensures NoCrash(more)
  {
    i, more := pos, [];
    while i < |current| && current[i].child.Leaf?
      invariant pos <= i <= |current|
      invariant WalkedFields(current[pos..], prefix) == more + WalkedFields(current[i..], prefix)
      invariant SizeOf(current[i..]) <= SizeOf(current[pos..])
      invariant NoCrash(more)
    {
      NextField(current, i, prefix);
      Regroup([], more, [Report(prefix + current[i].key, current[i].child.value)], WalkedFields(current[i + 1..], prefix));
      more := more + [Report(prefix + current[i].key, current[i].child.value)];
      i := i + 1;
    }
  }

  lemma Regroup(a: seq<Report>, b: seq<Report>, c: seq<Report>, d: seq<Report>)
    ensures a + ((b + c) + d) == (a + b) + (c + d)
    ensures (b + c) + d == b + (c + d)
  {
  }

  lemma Reported(root: seq<Field>, all: seq<Report>, reports: seq<Report>, at: Spot, i: nat, more: seq<Report>)
    requires OnTheWay(root, all, reports, at) && at.pos <= i <= |at.current|
    requires WalkedFields(at.current[at.pos..], at.prefix) == more + WalkedFields(at.current[i..], at.prefix)
    requires NoCrash(more) && SizeOf(at.current[i..]) <= SizeOf(at.current[at.pos..])
    ensures OnTheWay(root, all, reports + more, at.(pos := i)) && Work(at.(pos := i)) <= Work(at)
  {
    var tail := WalkedFields(at.current[i..], at.prefix);
    Regroup(reports, more, tail, Above(at.stack));
  }

  /** One level down, into the object at hand. */
  function Below(at: Spot): Spot
    requires at.pos < |at.current| && at.current[at.pos].child.Object?
  {
    var f := at.current[at.pos];
    Spot(f.child.fields, 0, at.prefix + f.key + ARROW, at.stack + [Frame(at.current, at.pos + 1, at.prefix)])
  }

  /** One level up, to what was pushed last. */
  function Up(at: Spot): Spot
    requires at.stack != []
  {
    var f := at.stack[|at.stack| - 1];
    Spot(f.obj, f.pos, Restored(f.prefix), at.stack[..|at.stack| - 1])
  }

  lemma NestedBelow(root: seq<Field>, at: Spot)
    requires Nested(root, at.stack, at.current) && at.pos < |at.current| && at.current[at.pos].child.Object?
    ensures Nested(root, Below(at).stack, Below(at).current) && Below(at).current != root
  {
    ChildIsSmaller(at.current, at.pos);
    var stack := Below(at).stack;
    assert forall i :: 0 <= i < |at.stack| ==> stack[i] == at.stack[i];
  }

  lemma Descended(root: seq<Field>, all: seq<Report>, reports: seq<Report>, at: Spot)
    requires OnTheWay(root, all, reports, at) && at.pos < |at.current| && at.current[at.pos].child.Object?
    ensures OnTheWay(root, all, reports, Below(at)) && Work(Below(at)) < Work(at) && Below(at).current != root
  {
    NestedBelow(root, at);
    var below, saved := Below(at), Frame(at.current, at.pos + 1, at.prefix);
    NextField(at.current, at.pos, at.prefix);
    AboveAfterPush(at.stack, saved);
    assert below.current[0..] == below.current;
    var mine, later := WalkedFields(below.current, below.prefix), WalkedFields(at.current[at.pos + 1..], Restored(at.prefix));
    Regroup([], mine, later, Above(at.stack));
    assert WalkedFields(at.current[at.pos..], at.prefix) == mine + later;
    assert Above(below.stack) == later + Above(at.stack);
  }

  lemma Returned(root: seq<Field>, all: seq<Report>, reports: seq<Report>, at: Spot)
    requires OnTheWay(root, all, reports, at) && at.pos == |at.current| && at.stack != []
    ensures Up(at).pos <= |Up(at).current| && OnTheWay(root, all, reports, Up(at)) && Work(Up(at)) < Work(at)
  {
    assert at.current[at.pos..] == [];
    assert [] + Above(at.stack) == Above(at.stack);
  }

  lemma Finished(root: seq<Field>, all: seq<Report>, reports: seq<Report>, at: Spot)
    requires OnTheWay(root, all, reports, at) && at.pos == |at.current| && at.current == root
    ensures at.stack == [] && reports == all && UntilCrash(all) == reports && Crash !in all
  {
    assert at.current[at.pos..] == [] && Above(at.stack) == [];
    assert all == reports;
    CutAppend(reports, []);
    assert reports + [] == reports;
  }

  lemma Crashed(root: seq<Field>, all: seq<Report>, reports: seq<Report>, at: Spot)
    requires OnTheWay(root, all, reports, at) && at.pos < |at.current| && at.current[at.pos].child.Null?
    ensures UntilCrash(all) == reports && Crash in all
  {
    NextField(at.current, at.pos, at.prefix);
    var rest := WalkedFields(at.current[at.pos..], at.prefix) + Above(at.stack);
    StopsHere(reports, rest);
  }

  datatype End = GoOn | Done | Threw

  /**
   One turn of the while loop: a run of leaves, then one level down, or the end at the root; a
   level that is at its end, or a child that is empty, is left again.
   */
  method Turn(root: seq<Field>, at: Spot, ghost all: seq<Report>, ghost reports: seq<Report>)
    returns (next: Spot, more: seq<Report>, end: End)
    requires OnTheWay(root, all, reports, at)
    ensures end.GoOn? ==> OnTheWay(root, all, reports + more, next) && Work(next) < Work(at)
    ensures !end.GoOn? ==> UntilCrash(all) == reports + more && (end.Threw? <==> Crash in all)
  {
    var i;
    i, more := ReportLeaves(at.current, at.pos, at.prefix);
    Reported(root, all, reports, at, i, more);
    next, end := at.(pos := i), GoOn;
    var items := at.current;
    if i < |items| {
      var f := items[i];
      if f.child.Null? {
        Crashed(root, all, reports + more, next);
        end := Threw;
        return;
      }
      Descended(root, all, reports + more, next);
      next := Below(next);
      items, i := f.child.fields, 0;
    }
    if next.current == root {
      Finished(root, all, reports + more, next);
      end := Done;
      return;
    }
    if i >= |items| {
      Returned(root, all, reports + more, next);
      next := Up(next);
    }
  }

  /**
   The loop of handleListMessage: `reports` are the calls of updateListObject in order, and
   `threw` says that Object.keys met a null.  It always ends, and its calls are those of the
   traversal above, up to the first null.
   */
  method HandleListMessage(root: Json) returns (reports: seq<Report>, threw: bool)
    ensures reports == UntilCrash(WalkedRoot(root))
    ensures threw <==> Crash in WalkedRoot(root)
  {
    reports, threw := [], false;
    if root.Leaf? { return; }          // typeof is not "object"
    if root.Null? { threw := true; return; }
    var at, end := Spot(root.fields, 0, "", []), GoOn;
    ghost var all := WalkedRoot(root);
    assert root.fields[0..] == root.fields && [] + (all + []) == all;
    while end.GoOn?
      invariant end.GoOn? ==> OnTheWay(root.fields, all, reports, at)
      invariant !end.GoOn? ==> UntilCrash(all) == reports && (end.Threw? <==> Crash in all)
      decreases end.GoOn?, if end.GoOn? then Work(at) else 0
    {
      var more;
      at, more, end := Turn(root.fields, at, all, reports);
      reports := reports + more;
    }
    threw := end.Threw?;
  }

  // ---------- when the walk reports what the plain traversal reports ----------

  predicate Contains(text: string, pattern: string) {
    exists i :: 0 <= i <= |text| && OccursAt(text, pattern, i)
  }

  predicate HasLeaf(j: Json)
    decreases j, 1, 0
  {
    j.Leaf? || (j.Object? && HasLeafIn(j.fields))
  }

  predicate HasLeafIn(fields: seq<Field>)
    decreases fields, 0, |fields|
  {
    fields != [] && (HasLeaf(fields[0].child) || HasLeafIn(fields[1..]))
  }

  /** No leaf comes after an object whose surrounding path contains "undefined->". */
  predicate Safe(j: Json, name: string, prefix: string)
    decreases j, 1, 0
  {
    j.Object? ==> SafeFields(j.fields, prefix + name + ARROW)
  }

  predicate SafeFields(fields: seq<Field>, prefix: string)
    decreases fields, 0, |fields|
  {
    fields != [] ==>
      && Safe(fields[0].child, fields[0].key, prefix)
      && if fields[0].child.Leaf? || !Contains(prefix, UNDEFINED) then SafeFields(fields[1..], prefix)
         else !HasLeafIn(fields[1..])
  }

  /** The first "undefined->" is taken out, and nothing else. */
  lemma RestoredTakesOutTheFirst(a: string, b: string)
    requires forall i :: 0 <= i < |a| ==> !OccursAt(a + UNDEFINED + b, UNDEFINED, i)
    ensures Restored(a + UNDEFINED + b) == a + b
  {
    var t := a + UNDEFINED + b;
    assert t[|a|..|a| + |UNDEFINED|] == UNDEFINED;
    assert OccursAt(t, UNDEFINED, |a|);
    assert FirstAt(t, UNDEFINED, 0) == |a|;
    assert t[..|a|] == a && t[|a| + |UNDEFINED|..] == b;
  }

  lemma RestoredShrinks(prefix: string)
    ensures !Contains(prefix, UNDEFINED) ==> Restored(prefix) == prefix
    ensures Contains(prefix, UNDEFINED) ==> |Restored(prefix)| < |prefix|
    ensures |Restored(prefix)| <= |prefix|
  {
    var i := FirstAt(prefix, UNDEFINED, 0);
    if k :| 0 <= k <= |prefix| && OccursAt(prefix, UNDEFINED, k) {
      assert i <= k < |prefix|;
    }
  }

  /** Crashes in the same places, and at every other place a shorter path. */
  ghost predicate Shorter(ws: seq<Report>, ps: seq<Report>, strictly: bool) {
    && |ws| == |ps|
    && (forall i :: 0 <= i < |ws| ==> (ws[i].Crash? <==> ps[i].Crash?))
    && (forall i :: 0 <= i < |ws| && ws[i].Report? ==>
          |ws[i].path| < |ps[i].path| || (!strictly && |ws[i].path| == |ps[i].path|))
  }

  lemma {:induction false} WalkedShorter(j: Json, name: string, p: string, q: string)
    requires |p| <= |q|
    ensures Shorter(Walked(j, name, p), Plain(j, name, q), |p| < |q|)
    decreases j, 1, 0
  {
    if j.Object? { WalkedFieldsShorter(j.fields, p + name + ARROW, q + name + ARROW); }
  }

  lemma ShorterAppend(a: seq<Report>, b: seq<Report>, c: seq<Report>, d: seq<Report>, strictly: bool, more: bool)
    requires Shorter(a, b, strictly) && Shorter(c, d, more) && (strictly ==> more)
    ensures Shorter(a + c, b + d, strictly)
  {
    forall i | 0 <= i < |a + c| ensures (a + c)[i] == (if i < |a| then a[i] else c[i - |a|])
                                  && (b + d)[i] == (if i < |a| then b[i] else d[i - |a|]) {}
  }

  lemma {:induction false} WalkedFieldsShorter(fields: seq<Field>, p: string, q: string)
    requires |p| <= |q|
    ensures Shorter(WalkedFields(fields, p), PlainFields(fields, q), |p| < |q|)
    decreases fields, 0, |fields|
  {
    if fields != [] {
      RestoredShrinks(p);
      var f, rest := fields[0], fields[1..];
      var p' := if f.child.Leaf? then p else Restored(p);
      WalkedShorter(f.child, f.key, p, q);
      WalkedFieldsShorter(rest, p', q);
      ShorterAppend(Walked(f.child, f.key, p), Plain(f.child, f.key, q), WalkedFields(rest, p'), PlainFields(rest, q),
                    |p| < |q|, |p'| < |q|);
    }
  }

  predicate AnyReport(rs: seq<Report>) {
    exists i :: 0 <= i < |rs| && rs[i].Report?
  }

  lemma AnyReportAppend(a: seq<Report>, b: seq<Report>)
    ensures AnyReport(a + b) <==> AnyReport(a) || AnyReport(b)
  {
    if i :| 0 <= i < |a| && a[i].Report? { assert (a + b)[i].Report?; }
    if i :| 0 <= i < |b| && b[i].Report? { assert (a + b)[|a| + i].Report?; }
  }

  lemma {:induction false} LeavesReport(fields: seq<Field>, q: string)
    ensures HasLeafIn(fields) <==> AnyReport(PlainFields(fields, q))
    decreases fields, 0, |fields|
  {
    if fields != [] {
      var f := fields[0];
      LeafReports(f.child, f.key, q);
      LeavesReport(fields[1..], q);
      AnyReportAppend(Plain(f.child, f.key, q), PlainFields(fields[1..], q));
    }
  }

  lemma {:induction false} LeafReports(j: Json, name: string, q: string)
    ensures HasLeaf(j) <==> AnyReport(Plain(j, name, q))
    decreases j, 1, 0
  {
    match j {
      case Leaf(_) => assert Plain(j, name, q)[0].Report?;
      case Null =>
      case Object(fields) => LeavesReport(fields, q + name + ARROW);
    }
  }

  lemma ShorterDiffers(ws: seq<Report>, ps: seq<Report>)
    requires Shorter(ws, ps, true)
    ensures ws == ps <==> !AnyReport(ps)
  {
    if !AnyReport(ps) {
      assert forall i :: 0 <= i < |ps| ==> ws[i] == ps[i];
    }
  }

  /** With a strictly shorter prefix the reports agree exactly when there is no leaf to report. */
  lemma ShortenedDiffers(fields: seq<Field>, p: string, q: string)
    requires |p| < |q|
    ensures WalkedFields(fields, p) == PlainFields(fields, q) <==> !HasLeafIn(fields)
  {
    WalkedFieldsShorter(fields, p, q);
    LeavesReport(fields, q);
    ShorterDiffers(WalkedFields(fields, p), PlainFields(fields, q));
  }

  lemma {:induction false} SafeChildAgrees(j: Json, name: string, p: string)
    ensures Walked(j, name, p) == Plain(j, name, p) <==> Safe(j, name, p)
    decreases j, 1, 0
  {
    if j.Object? { SafeFieldsAgree(j.fields, p + name + ARROW); }
  }

  lemma {:induction false} SafeFieldsAgree(fields: seq<Field>, p: string)
    ensures WalkedFields(fields, p) == PlainFields(fields, p) <==> SafeFields(fields, p)
    decreases fields, 0, |fields|
  {
    if fields != [] {
      var f := fields[0];
      var p' := if f.child.Leaf? then p else Restored(p);
      SafeChildAgrees(f.child, f.key, p);
      WalkedShorter(f.child, f.key, p, p);
      RestoredShrinks(p);
      var a, b := Walked(f.child, f.key, p), Plain(f.child, f.key, p);
      var c, d := WalkedFields(fields[1..], p'), PlainFields(fields[1..], p);
      SplitEqual(a, b, c, d);
      if f.child.Leaf? || !Contains(p, UNDEFINED) {
        SafeFieldsAgree(fields[1..], p);
      } else {
        ShortenedDiffers(fields[1..], p', p);
      }
    }
  }

  lemma SplitEqual(a: seq<Report>, b: seq<Report>, c: seq<Report>, d: seq<Report>)
    requires |a| == |b|
    ensures a + c == b + d <==> a == b && c == d
  {
    if a + c == b + d {
      assert a == (a + c)[..|a|] && b == (b + d)[..|b|] && c == (a + c)[|a|..] && d == (b + d)[|b|..];
    }
  }

  // ---------- what lies before the first null ----------

  predicate HasNull(j: Json)
    decreases j, 1, 0
  {
    j.Null? || (j.Object? && HasNullIn(j.fields))
  }

  predicate HasNullIn(fields: seq<Field>)
    decreases fields, 0, |fields|
  {
    fields != [] && (HasNull(fields[0].child) || HasNullIn(fields[1..]))
  }

  /** The tree up to its first null, in the order of the traversal. */
  function BeforeNull(fields: seq<Field>): seq<Field>
    decreases fields, 0, |fields|
  {
    if fields == [] || fields[0].child.Null? then []
    else if !HasNull(fields[0].child) then [fields[0]] + BeforeNull(fields[1..])
    else [Field(fields[0].key, Object(BeforeNull(fields[0].child.fields)))]
  }

  lemma {:induction false} CutStops(a: seq<Report>, b: seq<Report>)
    requires !NoCrash(a)
    ensures UntilCrash(a + b) == UntilCrash(a)
  {
    assert (a + b)[0] == a[0];
    if !a[0].Crash? {
      assert (a + b)[1..] == a[1..] + b;
      assert !NoCrash(a[1..]) by {
        var i :| 0 <= i < |a| && a[i].Crash?;
        assert a[1..][i - 1].Crash?;
      }
      CutStops(a[1..], b);
    }
  }

  lemma NoCrashAppend(a: seq<Report>, b: seq<Report>)
    ensures NoCrash(a + b) <==> NoCrash(a) && NoCrash(b)
  {
    assert forall i :: 0 <= i < |a| ==> (a + b)[i] == a[i];
    assert forall i :: 0 <= i < |b| ==> (a + b)[|a| + i] == b[i];
  }

  lemma {:induction false} NullCrashesWalk(fields: seq<Field>, p: string)
    ensures HasNullIn(fields) <==> !NoCrash(WalkedFields(fields, p))
    decreases fields, 0, |fields|
  {
    if fields != [] {
      var f, p' := fields[0], if fields[0].child.Leaf? then p else Restored(p);
      if f.child.Null? { assert Walked(f.child, f.key, p)[0].Crash?; }
      if f.child.Object? { NullCrashesWalk(f.child.fields, p + f.key + ARROW); }
      NullCrashesWalk(fields[1..], p');
      NoCrashAppend(Walked(f.child, f.key, p), WalkedFields(fields[1..], p'));
    }
  }

  lemma {:induction false} NullCrashesPlain(fields: seq<Field>, p: string)
    ensures HasNullIn(fields) <==> !NoCrash(PlainFields(fields, p))
    decreases fields, 0, |fields|
  {
    if fields != [] {
      var f := fields[0];
      if f.child.Null? { assert Plain(f.child, f.key, p)[0].Crash?; }
      if f.child.Object? { NullCrashesPlain(f.child.fields, p + f.key + ARROW); }
      NullCrashesPlain(fields[1..], p);
      NoCrashAppend(Plain(f.child, f.key, p), PlainFields(fields[1..], p));
    }
  }

  /** The calls made before the first null are those for the tree that ends there. */
  lemma {:induction false} WalkBeforeNull(fields: seq<Field>, p: string)
    ensures UntilCrash(WalkedFields(fields, p)) == WalkedFields(BeforeNull(fields), p)
    decreases fields, 0, |fields|
  {
    if fields != [] {
      var f, p' := fields[0], if fields[0].child.Leaf? then p else Restored(p);
      var a, b := Walked(f.child, f.key, p), WalkedFields(fields[1..], p');
      if f.child.Null? {
        assert a + b == [Crash] + b;
      } else if !HasNull(f.child) {
        if f.child.Object? { NullCrashesWalk(f.child.fields, p + f.key + ARROW); }
        CutAppend(a, b);
        WalkBeforeNull(fields[1..], p');
        assert BeforeNull(fields)[0] == f && BeforeNull(fields)[1..] == BeforeNull(fields[1..]);
      } else {
        NullCrashesWalk(f.child.fields, p + f.key + ARROW);
        CutStops(a, b);
        WalkBeforeNull(f.child.fields, p + f.key + ARROW);
        assert BeforeNull(fields)[1..] == [] && WalkedFields([], p') == [];
      }
    }
  }

  lemma {:induction false} PlainBeforeNull(fields: seq<Field>, p: string)
    ensures UntilCrash(PlainFields(fields, p)) == PlainFields(BeforeNull(fields), p)
    decreases fields, 0, |fields|
  {
    if fields != [] {
      var f := fields[0];
      var a, b := Plain(f.child, f.key, p), PlainFields(fields[1..], p);
      if f.child.Null? {
        assert a + b == [Crash] + b;
      } else if !HasNull(f.child) {
        if f.child.Object? { NullCrashesPlain(f.child.fields, p + f.key + ARROW); }
        CutAppend(a, b);
        PlainBeforeNull(fields[1..], p);
        assert BeforeNull(fields)[0] == f && BeforeNull(fields)[1..] == BeforeNull(fields[1..]);
      } else {
        NullCrashesPlain(f.child.fields, p + f.key + ARROW);
        CutStops(a, b);
        PlainBeforeNull(f.child.fields, p + f.key + ARROW);
        assert BeforeNull(fields)[1..] == [] && PlainFields([], p) == [];
      }
    }
  }

  /**
   The calls made, which end at the first null, are those of the plain traversal if and only if the
   tree is safe up to there.
   */
  lemma WalkIsPlainExactlyWhen(root: Json)
    ensures UntilCrash(WalkedRoot(root)) == UntilCrash(PlainRoot(root)) <==>
            (root.Object? ==> SafeFields(BeforeNull(root.fields), ""))
  {
    if root.Object? {
      WalkBeforeNull(root.fields, "");
      PlainBeforeNull(root.fields, "");
      SafeFieldsAgree(BeforeNull(root.fields), "");
    }
  }

  /** A tree that breaks it: the second leaf of the inner object loses part of its path. */
  lemma UndefinedKeyLosesItsPath()
    ensures var tree := Object([Field("undefined", Object([Field("a", Object([])), Field("b", Leaf("x"))]))]);
            WalkedRoot(tree) == [Report("b", "x")] && PlainRoot(tree) == [Report("undefined->b", "x")]
  {
    var inner := [Field("a", Object([])), Field("b", Leaf("x"))];
    assert inner[1..] == [Field("b", Leaf("x"))] && inner[1..][1..] == [];
    assert [Field("undefined", Object(inner))][1..] == [];
    assert "" + "undefined" + ARROW == UNDEFINED && OccursAt(UNDEFINED, UNDEFINED, 0);
    assert Restored(UNDEFINED) == "";
    assert "" + "b" == "b" && UNDEFINED + "b" == "undefined->b";
    assert WalkedFields(inner[1..], "") == [Report("b", "x")];
    assert PlainFields(inner[1..], UNDEFINED) == [Report("undefined->b", "x")];
    assert WalkedFields(inner, UNDEFINED) == [Report("b", "x")];
    assert PlainFields(inner, UNDEFINED) == [Report("undefined->b", "x")];
  }

  // ---------- trees without the word ----------

  const WORD := "undefined"

  predicate NoWord(j: Json)
    decreases j, 1, 0
  {
    j.Object? ==> NoWordIn(j.fields)
  }

  predicate NoWordIn(fields: seq<Field>)
    decreases fields, 0, |fields|
  {
    fields != [] ==> !Contains(fields[0].key, WORD) && NoWord(fields[0].child) && NoWordIn(fields[1..])
  }

  /** A path of complete steps: empty, or ending in an arrow. */
  predicate IsPath(p: string) {
    p == "" || p[|p| - 1] == '>'
  }

  lemma WordStaysOut(p: string, key: string)
    requires IsPath(p) && !Contains(p, WORD) && !Contains(key, WORD)
    ensures !Contains(p + key + ARROW, WORD) && IsPath(p + key + ARROW)
  {
    var t := p + key + ARROW;
    assert p != "" ==> t[|p| - 1] == '>';
    assert t[|p| + |key|] == '-' && t[|p| + |key| + 1] == '>';
    forall i | 0 <= i <= |t| ensures !OccursAt(t, WORD, i) {
      if i + 9 <= |p| {
        assert p[i..i + 9] == t[i..i + 9];
        assert !OccursAt(p, WORD, i);
      } else if |p| <= i && i + 9 <= |p| + |key| {
        assert key[i - |p|..i - |p| + 9] == t[i..i + 9];
        assert !OccursAt(key, WORD, i - |p|);
      } else if i + 9 <= |t| {
        // the stretch takes in a character of an arrow
        var k := if i < |p| then |p| - 1 else |p| + |key|;
        assert t[i..i + 9][k - i] == t[k];
      }
    }
  }

  lemma WordCovers(p: string)
    requires !Contains(p, WORD)
    ensures !Contains(p, UNDEFINED)
  {
    if i :| 0 <= i <= |p| && OccursAt(p, UNDEFINED, i) {
      assert p[i..i + 9] == p[i..i + 11][..9] == WORD;
      assert OccursAt(p, WORD, i);
    }
  }

  lemma {:induction false} NoWordIsSafe(fields: seq<Field>, p: string)
    requires NoWordIn(fields) && IsPath(p) && !Contains(p, WORD)
    ensures SafeFields(fields, p)
    decreases fields, 0, |fields|
  {
    if fields != [] {
      WordCovers(p);
      ChildWithoutWord(fields[0].child, fields[0].key, p);
      NoWordIsSafe(fields[1..], p);
    }
  }

  lemma {:induction false} ChildWithoutWord(j: Json, key: string, p: string)
    requires NoWord(j) && IsPath(p) && !Contains(p, WORD) && !Contains(key, WORD)
    ensures Safe(j, key, p)
    decreases j, 1, 0
  {
    if j.Object? {
      WordStaysOut(p, key);
      NoWordIsSafe(j.fields, p + key + ARROW);
    }
  }

  // ---------- the leaves and their keys ----------

  /** A leaf with the keys that lead to it, or a null. */
  datatype Visit = Visit(keys: seq<string>, value: string) | NullAt(keys: seq<string>)

  function Visits(j: Json, keys: seq<string>): seq<Visit>
    decreases j, 1, 0
  {
    match j
    case Leaf(v) => [Visit(keys, v)]
    case Null => [NullAt(keys)]
    case Object(fields) => VisitsIn(fields, keys)
  }

  function VisitsIn(fields: seq<Field>, above: seq<string>): seq<Visit>
    decreases fields, 0, |fields|
  {
    if fields == [] then [] else Visits(fields[0].child, above + [fields[0].key]) + VisitsIn(fields[1..], above)
  }

  /** Keys joined by arrows. */
  function ArrowJoined(keys: seq<string>): string {
    if keys == [] then ""
    else if |keys| == 1 then keys[0]
    else ArrowJoined(keys[..|keys| - 1]) + "->" + keys[|keys| - 1]
  }

  function Told(vs: seq<Visit>): seq<Report> {
    seq(|vs|, i requires 0 <= i < |vs| => if vs[i].Visit? then Report(ArrowJoined(vs[i].keys), vs[i].value) else Crash)
  }

  function PrefixOf(above: seq<string>): string {
    if above == [] then "" else ArrowJoined(above) + "->"
  }

  lemma Deeper(above: seq<string>, key: string)
    ensures ArrowJoined(above + [key]) == PrefixOf(above) + key
    ensures PrefixOf(above + [key]) == PrefixOf(above) + key + ARROW
  {
    assert (above + [key])[..|above|] == above;
    assert above == [] ==> "" + key == key;
  }

  lemma ToldAppend(a: seq<Visit>, b: seq<Visit>)
    ensures Told(a + b) == Told(a) + Told(b)
  {
  }

  lemma {:induction false} PlainTellsIn(fields: seq<Field>, above: seq<string>)
    ensures PlainFields(fields, PrefixOf(above)) == Told(VisitsIn(fields, above))
    decreases fields, 0, |fields|
  {
    if fields != [] {
      var f := fields[0];
      PlainTells(f.child, f.key, above);
      PlainTellsIn(fields[1..], above);
      ToldAppend(Visits(f.child, above + [f.key]), VisitsIn(fields[1..], above));
    }
  }

  lemma {:induction false} PlainTells(j: Json, key: string, above: seq<string>)
    ensures Plain(j, key, PrefixOf(above)) == Told(Visits(j, above + [key]))
    decreases j, 1, 0
  {
    Deeper(above, key);
    if j.Object? { PlainTellsIn(j.fields, above + [key]); }
  }

  /** On a tree without nulls and without the word "undefined" in a key the walk makes every plain report, in order. */
  lemma OrdinaryTreesAreReported(fields: seq<Field>)
    requires !HasNullIn(fields) && NoWordIn(fields)
    ensures UntilCrash(WalkedRoot(Object(fields))) == PlainRoot(Object(fields)) == Told(VisitsIn(fields, []))
  {
    PlainTellsIn(fields, []);
    NoWordIsSafe(fields, "");
    SafeFieldsAgree(fields, "");
    NullCrashesPlain(fields, "");
    CutAppend(PlainFields(fields, ""), []);
    assert PlainFields(fields, "") + [] == PlainFields(fields, "");
  }
}
