/**
 Matching of transmitted against received messages
 (tools/v2xhub-messaging-performance-analyzer/v2xhub_messaging_performance_analyzer.py,
 calculate_messsage_performance).

 Receive rows keep their original index, as the labels of a data frame do when rows are dropped.
 `fold` stands for the case folding that both sides go through; nothing is assumed about it.
 */
module MessageMatching {
  import opened Sets

  datatype Row = Row(timestamp: int, kind: string, text: string)

  const MAX_LATENCY_MS := 200

  datatype Verdict = Matched(rx: nat) | Dropped

  /** A row of one of the two result frames.  Both lists start out holding one empty row. */
  datatype ReportRow =
    | Blank
    | DropRow(timestamp: int, kind: string, text: string)
    | LatencyRow(timestamp: int, kind: string, latency: int)

  predicate SameText(fold: string -> string, t: Row, r: Row) {
    fold(r.text) == fold(t.text)
  }

  /** The pairs that may be counted as a delivery. */
  predicate Feasible(fold: string -> string, t: Row, r: Row) {
    SameText(fold, t, r) && r.timestamp - t.timestamp <= MAX_LATENCY_MS
  }

  /** Rows with the same folded text come in timestamp order; a log in timestamp order has this. */
  ghost predicate Ordered(fold: string -> string, log: seq<Row>) {
    forall i, j :: 0 <= i < j < |log| && fold(log[i].text) == fold(log[j].text) ==> log[i].timestamp <= log[j].timestamp
  }

  // ---------- what the loop computes ----------

  /** The remaining receive rows with the text of `t`. */
  ghost function Candidates(fold: string -> string, t: Row, rx: seq<Row>, left: set<nat>): set<nat> {
    set j | j in left && j < |rx| && SameText(fold, t, rx[j])
  }

  ghost predicate IsFirst(j: nat, s: set<nat>) {
    j in s && forall k: nat :: k in s ==> j <= k
  }

  /** The verdict the loop body must reach for `t` when `left` is what remains of the receive log. */
  ghost predicate Decides(fold: string -> string, t: Row, rx: seq<Row>, left: set<nat>, v: Verdict) {
    var s := Candidates(fold, t, rx, left);
    match v
    case Matched(j) => IsFirst(j, s) && Feasible(fold, t, rx[j])
    case Dropped => forall j: nat :: IsFirst(j, s) ==> !Feasible(fold, t, rx[j])
  }

  function Without(left: set<nat>, v: Verdict): set<nat> {
    if v.Matched? then left - {v.rx} else left
  }

  /** `verdicts` is the greedy run over `tx`, starting with `left`. */
  ghost predicate IsGreedy(fold: string -> string, tx: seq<Row>, rx: seq<Row>, left: set<nat>, verdicts: seq<Verdict>)
    decreases |tx|
  {
    |verdicts| == |tx| &&
    (tx == [] ||
     (Decides(fold, tx[0], rx, left, verdicts[0]) &&
      IsGreedy(fold, tx[1..], rx, Without(left, verdicts[0]), verdicts[1..])))
  }

  ghost function Indices(n: nat): (s: set<nat>)
    ensures forall j: nat :: j in s <==> j < n
  {
    if n == 0 then {} else Indices(n - 1) + {n - 1}
  }

  /** The rows, none or one, that a verdict adds to either list. */
  function DropOf(t: Row, v: Verdict): seq<ReportRow> {
    if v.Dropped? then [DropRow(t.timestamp, t.kind, t.text)] else []
  }

  function LatencyOf(t: Row, rx: seq<Row>, v: Verdict): seq<ReportRow> {
    if v.Matched? && v.rx < |rx| then [LatencyRow(t.timestamp, t.kind, rx[v.rx].timestamp - t.timestamp)] else []
  }

  function DropRows(tx: seq<Row>, verdicts: seq<Verdict>): seq<ReportRow>
    requires |tx| == |verdicts|
  {
    if tx == [] then [] else DropOf(tx[0], verdicts[0]) + DropRows(tx[1..], verdicts[1..])
  }

  function LatencyRows(tx: seq<Row>, rx: seq<Row>, verdicts: seq<Verdict>): seq<ReportRow>
    requires |tx| == |verdicts|
  {
    if tx == [] then [] else LatencyOf(tx[0], rx, verdicts[0]) + LatencyRows(tx[1..], rx, verdicts[1..])
  }

  /** A list of rows becomes a frame: the leading blank row stays in it unless it is the only one. */
  function Frame(rows: seq<ReportRow>): seq<ReportRow> {
    if rows == [] then [] else [Blank] + rows
  }

  lemma {:induction false} AppendDrop(tx: seq<Row>, verdicts: seq<Verdict>, t: Row, v: Verdict)
    requires |tx| == |verdicts|
    ensures DropRows(tx + [t], verdicts + [v]) == DropRows(tx, verdicts) + DropOf(t, v)
  {
    if tx == [] {
      assert tx + [t] == [t] && verdicts + [v] == [v] && [t][1..] == [] && [v][1..] == [];
    } else {
      assert (tx + [t])[1..] == tx[1..] + [t] && (verdicts + [v])[1..] == verdicts[1..] + [v];
      AppendDrop(tx[1..], verdicts[1..], t, v);
    }
  }

  lemma {:induction false} AppendLatency(tx: seq<Row>, rx: seq<Row>, verdicts: seq<Verdict>, t: Row, v: Verdict)
    requires |tx| == |verdicts|
    ensures LatencyRows(tx + [t], rx, verdicts + [v]) == LatencyRows(tx, rx, verdicts) + LatencyOf(t, rx, v)
  {
    if tx == [] {
      assert tx + [t] == [t] && verdicts + [v] == [v] && [t][1..] == [] && [v][1..] == [];
    } else {
      assert (tx + [t])[1..] == tx[1..] + [t] && (verdicts + [v])[1..] == verdicts[1..] + [v];
      AppendLatency(tx[1..], rx, verdicts[1..], t, v);
    }
  }

  /** What is left of the receive log after the given verdicts. */
  ghost function Remaining(left: set<nat>, verdicts: seq<Verdict>): set<nat> {
    if verdicts == [] then left else Remaining(Without(left, verdicts[0]), verdicts[1..])
  }

  lemma {:induction false} AppendVerdict(fold: string -> string, tx: seq<Row>, rx: seq<Row>, left: set<nat>,
                                         verdicts: seq<Verdict>, t: Row, v: Verdict)
    requires IsGreedy(fold, tx, rx, left, verdicts)
    requires Decides(fold, t, rx, Remaining(left, verdicts), v)
    ensures IsGreedy(fold, tx + [t], rx, left, verdicts + [v])
    ensures Remaining(left, verdicts + [v]) == Without(Remaining(left, verdicts), v)
    decreases |tx|
  {
    if tx == [] {
      assert tx + [t] == [t] && verdicts + [v] == [v] && [t][1..] == [] && [v][1..] == [];
    } else {
      assert (tx + [t])[1..] == tx[1..] + [t] && (verdicts + [v])[1..] == verdicts[1..] + [v];
      AppendVerdict(fold, tx[1..], rx, Without(left, verdicts[0]), verdicts[1..], t, v);
    }
  }

  /** The labels still in rx_log, in order, and the set they stand for. */
  ghost predicate Mirrors(labels: seq<nat>, n: nat, left: set<nat>) {
    && (forall a, b :: 0 <= a < b < |labels| ==> labels[a] < labels[b])
    && (forall a :: 0 <= a < |labels| ==> labels[a] < n)
    && (forall j :: j in labels <==> j in left)
  }

  method FindFirst(fold: string -> string, t: Row, rx: seq<Row>, labels: seq<nat>) returns (k: nat)
    requires forall a :: 0 <= a < |labels| ==> labels[a] < |rx|
    ensures k <= |labels|
    ensures forall a :: 0 <= a < k ==> !SameText(fold, t, rx[labels[a]])
    ensures k < |labels| ==> SameText(fold, t, rx[labels[k]])
  {
    k := 0;
    while k < |labels| && !SameText(fold, t, rx[labels[k]])
      invariant 0 <= k <= |labels|
      invariant forall a :: 0 <= a < k ==> !SameText(fold, t, rx[labels[a]])
    {
      k := k + 1;
    }
  }

  lemma FoundIsFirst(fold: string -> string, t: Row, rx: seq<Row>, labels: seq<nat>, left: set<nat>, k: nat)
    requires Mirrors(labels, |rx|, left) && k <= |labels|
    requires forall a :: 0 <= a < k ==> !SameText(fold, t, rx[labels[a]])
    requires k < |labels| ==> SameText(fold, t, rx[labels[k]])
    ensures k < |labels| ==> forall j: nat :: IsFirst(j, Candidates(fold, t, rx, left)) <==> j == labels[k]
    ensures k == |labels| ==> Candidates(fold, t, rx, left) == {}
  {
    var s := Candidates(fold, t, rx, left);
    forall j | j in s ensures k < |labels| && labels[k] <= j {
      assert j in labels;
      var a :| 0 <= a < |labels| && labels[a] == j;
    }
    if k < |labels| { assert labels[k] in s; }
  }

  lemma MirrorsWithout(labels: seq<nat>, n: nat, left: set<nat>, k: nat)
    requires Mirrors(labels, n, left) && k < |labels|
    ensures Mirrors(labels[..k] + labels[k + 1..], n, left - {labels[k]})
  {
    var t := labels[..k] + labels[k + 1..];
    forall j ensures j in t <==> j in left - {labels[k]} {
      if j in left - {labels[k]} {
        assert j in labels;
        var a :| 0 <= a < |labels| && labels[a] == j;
        assert if a < k then t[a] == j else t[a - 1] == j;
      }
    }
  }

  /** The state of the loop after the first n transmit rows. */
  ghost predicate Reached(fold: string -> string, tx: seq<Row>, rx: seq<Row>, n: nat, labels: seq<nat>,
                          verdicts: seq<Verdict>, dropList: seq<ReportRow>, latencyList: seq<ReportRow>)
  {
    && n <= |tx| && |verdicts| == n
    && Mirrors(labels, |rx|, Remaining(Indices(|rx|), verdicts))
    && IsGreedy(fold, tx[..n], rx, Indices(|rx|), verdicts)
    && dropList == [Blank] + DropRows(tx[..n], verdicts)
    && latencyList == [Blank] + LatencyRows(tx[..n], rx, verdicts)
  }

  lemma ReachedNext(fold: string -> string, tx: seq<Row>, rx: seq<Row>, n: nat, labels: seq<nat>,
                    verdicts: seq<Verdict>, dropList: seq<ReportRow>, latencyList: seq<ReportRow>,
                    labels': seq<nat>, v: Verdict)
    requires Reached(fold, tx, rx, n, labels, verdicts, dropList, latencyList) && n < |tx|
    requires Decides(fold, tx[n], rx, Remaining(Indices(|rx|), verdicts), v)
    requires Mirrors(labels', |rx|, Without(Remaining(Indices(|rx|), verdicts), v))
    ensures Reached(fold, tx, rx, n + 1, labels', verdicts + [v],
                    dropList + DropOf(tx[n], v), latencyList + LatencyOf(tx[n], rx, v))
  {
    var done, t := tx[..n], tx[n];
    assert tx[..n + 1] == done + [t];
    AppendVerdict(fold, done, rx, Indices(|rx|), verdicts, t, v);
    AppendDrop(done, verdicts, t, v);
    AppendLatency(done, rx, verdicts, t, v);
    Associate([Blank], DropRows(done, verdicts), DropOf(t, v));
    Associate([Blank], LatencyRows(done, rx, verdicts), LatencyOf(t, rx, v));
  }

  lemma Associate(a: seq<ReportRow>, b: seq<ReportRow>, c: seq<ReportRow>)
    ensures (a + b) + c == a + (b + c)
  {
  }

  lemma AllLabels(n: nat, labels: seq<nat>)
    requires |labels| == n && forall i :: 0 <= i < n ==> labels[i] == i
    ensures Mirrors(labels, n, Indices(n))
  {
    assert forall j: nat :: j in Indices(n) ==> labels[j] == j;
  }

  // ---------- what the two frames say ----------

  ghost function MatchedAt(verdicts: seq<Verdict>): set<nat> {
    set i: nat | i < |verdicts| && verdicts[i].Matched?
  }

  ghost function DroppedAt(verdicts: seq<Verdict>): set<nat> {
    set i: nat | i < |verdicts| && verdicts[i].Dropped?
  }

  /** A matched row tells when it was sent, its kind, and how much later it was received. */
  ghost predicate TellsLatency(fold: string -> string, t: Row, r: Row, row: ReportRow) {
    row.LatencyRow? && row.timestamp == t.timestamp && row.kind == t.kind &&
    t.timestamp + row.latency == r.timestamp && row.latency <= 200 && fold(t.text) == fold(r.text)
  }

  ghost predicate TellsDrop(t: Row, row: ReportRow) {
    row.DropRow? && row.timestamp == t.timestamp && row.kind == t.kind && row.text == t.text
  }

  /** Row j of the list tells of transmit row at[j], and at lists the matched ones. */
  ghost predicate ListsLatencies(fold: string -> string, tx: seq<Row>, rx: seq<Row>, verdicts: seq<Verdict>,
                                 rows: seq<ReportRow>, at: seq<nat>)
  {
    |at| == |rows| && Lists(at, MatchedAt(verdicts)) &&
    forall j :: 0 <= j < |at| ==>
      at[j] < |verdicts| <= |tx| && verdicts[at[j]].Matched? && verdicts[at[j]].rx < |rx| &&
      TellsLatency(fold, tx[at[j]], rx[verdicts[at[j]].rx], rows[j])
  }

  ghost predicate ListsDrops(tx: seq<Row>, verdicts: seq<Verdict>, rows: seq<ReportRow>, at: seq<nat>) {
    |at| == |rows| && Lists(at, DroppedAt(verdicts)) &&
    forall j :: 0 <= j < |at| ==> at[j] < |verdicts| <= |tx| && TellsDrop(tx[at[j]], rows[j])
  }

  /** The rows of a frame; where there are any, a blank one stands before them. */
  ghost predicate HasRows(frame: seq<ReportRow>, rows: seq<ReportRow>) {
    if frame == [] then rows == [] else rows != [] && frame[0] == Blank && frame[1..] == rows
  }

  ghost predicate IsLatencyFrame(fold: string -> string, tx: seq<Row>, rx: seq<Row>, verdicts: seq<Verdict>, frame: seq<ReportRow>) {
    exists rows, at :: HasRows(frame, rows) && ListsLatencies(fold, tx, rx, verdicts, rows, at)
  }

  ghost predicate IsDropFrame(tx: seq<Row>, verdicts: seq<Verdict>, frame: seq<ReportRow>) {
    exists rows, at :: HasRows(frame, rows) && ListsDrops(tx, verdicts, rows, at)
  }

  ghost predicate AllFeasible(fold: string -> string, tx: seq<Row>, rx: seq<Row>, verdicts: seq<Verdict>) {
    |verdicts| == |tx| &&
    forall i :: 0 <= i < |verdicts| && verdicts[i].Matched? ==>
      verdicts[i].rx < |rx| && Feasible(fold, tx[i], rx[verdicts[i].rx])
  }

  lemma MatchedNext(verdicts: seq<Verdict>, v: Verdict)
    ensures MatchedAt(verdicts + [v]) == MatchedAt(verdicts) + if v.Matched? then {|verdicts|} else {}
    ensures DroppedAt(verdicts + [v]) == DroppedAt(verdicts) + if v.Dropped? then {|verdicts|} else {}
  {
  }

  lemma LatencyListed(fold: string -> string, tx: seq<Row>, rx: seq<Row>, verdicts: seq<Verdict>, rows: seq<ReportRow>,
                      at: seq<nat>, t: Row, v: Verdict)
    returns (at': seq<nat>)
    requires |tx| == |verdicts| && ListsLatencies(fold, tx, rx, verdicts, rows, at)
    requires v.Matched? ==> v.rx < |rx| && Feasible(fold, t, rx[v.rx])
    ensures ListsLatencies(fold, tx + [t], rx, verdicts + [v], rows + LatencyOf(t, rx, v), at')
  {
    MatchedNext(verdicts, v);
    at' := at + if v.Matched? then [|tx|] else [];
    if v.Matched? { ListsNext(at, MatchedAt(verdicts), |tx|); }
  }

  lemma {:induction false} LatenciesAreListed(fold: string -> string, tx: seq<Row>, rx: seq<Row>, verdicts: seq<Verdict>)
    returns (at: seq<nat>)
    requires AllFeasible(fold, tx, rx, verdicts)
    ensures ListsLatencies(fold, tx, rx, verdicts, LatencyRows(tx, rx, verdicts), at)
    decreases |tx|
  {
    if tx == [] {
      at := [];
    } else {
      var n := |tx| - 1;
      var t, v, some, before := tx[n], verdicts[n], tx[..n], verdicts[..n];
      at := LatenciesAreListed(fold, some, rx, before);
      AppendLatency(some, rx, before, t, v);
      at := LatencyListed(fold, some, rx, before, LatencyRows(some, rx, before), at, t, v);
      assert tx == some + [t] && verdicts == before + [v];
    }
  }

  lemma DropListed(tx: seq<Row>, verdicts: seq<Verdict>, rows: seq<ReportRow>, at: seq<nat>, t: Row, v: Verdict)
    returns (at': seq<nat>)
    requires |tx| == |verdicts| && ListsDrops(tx, verdicts, rows, at)
    ensures ListsDrops(tx + [t], verdicts + [v], rows + DropOf(t, v), at')
  {
    MatchedNext(verdicts, v);
    at' := at + if v.Dropped? then [|tx|] else [];
    if v.Dropped? { ListsNext(at, DroppedAt(verdicts), |tx|); }
  }

  lemma {:induction false} DropsAreListed(tx: seq<Row>, verdicts: seq<Verdict>) returns (at: seq<nat>)
    requires |tx| == |verdicts|
    ensures ListsDrops(tx, verdicts, DropRows(tx, verdicts), at)
    decreases |tx|
  {
    if tx == [] {
      at := [];
    } else {
      var n := |tx| - 1;
      var t, v, some, before := tx[n], verdicts[n], tx[..n], verdicts[..n];
      at := DropsAreListed(some, before);
      AppendDrop(some, before, t, v);
      at := DropListed(some, before, DropRows(some, before), at, t, v);
      assert tx == some + [t] && verdicts == before + [v];
    }
  }

  lemma FrameHasRows(rows: seq<ReportRow>)
    ensures HasRows(Frame(rows), rows)
  {
  }

  lemma GreedyIsFeasible(fold: string -> string, tx: seq<Row>, rx: seq<Row>, verdicts: seq<Verdict>)
    requires IsGreedy(fold, tx, rx, Indices(|rx|), verdicts)
    ensures AllFeasible(fold, tx, rx, verdicts)
  {
    forall i | 0 <= i < |verdicts| && verdicts[i].Matched?
      ensures verdicts[i].rx < |rx| && Feasible(fold, tx[i], rx[verdicts[i].rx])
    {
      GreedyUsesWhatIsLeft(fold, tx, rx, Indices(|rx|), verdicts, i);
    }
  }

  lemma LatencyFrameIsRight(fold: string -> string, tx: seq<Row>, rx: seq<Row>, verdicts: seq<Verdict>)
    requires AllFeasible(fold, tx, rx, verdicts)
    ensures IsLatencyFrame(fold, tx, rx, verdicts, Frame(LatencyRows(tx, rx, verdicts)))
  {
    var at := LatenciesAreListed(fold, tx, rx, verdicts);
    FrameHasRows(LatencyRows(tx, rx, verdicts));
  }

  lemma DropFrameIsRight(tx: seq<Row>, verdicts: seq<Verdict>)
    requires |tx| == |verdicts|
    ensures IsDropFrame(tx, verdicts, Frame(DropRows(tx, verdicts)))
  {
    var at := DropsAreListed(tx, verdicts);
    FrameHasRows(DropRows(tx, verdicts));
  }

  /** The loop of calculate_messsage_performance, with the verdicts it takes along the way. */
  method CalculateMessagePerformance(fold: string -> string, tx: seq<Row>, rx: seq<Row>)
    returns (drops: seq<ReportRow>, latencies: seq<ReportRow>, verdicts: seq<Verdict>)
    ensures IsGreedy(fold, tx, rx, Indices(|rx|), verdicts)
    ensures drops == Frame(DropRows(tx, verdicts))
    ensures latencies == Frame(LatencyRows(tx, rx, verdicts))
    ensures IsDropFrame(tx, verdicts, drops) && IsLatencyFrame(fold, tx, rx, verdicts, latencies)
  {
    verdicts := [];
    var dropList, latencyList := [Blank], [Blank];
    var left: seq<nat> := seq(|rx|, i requires 0 <= i => i);
    AllLabels(|rx|, left);
    var n := 0;
    while n < |tx|
      invariant 0 <= n
      invariant Reached(fold, tx, rx, n, left, verdicts, dropList, latencyList)
    {
      var t := tx[n];
      var k := FindFirst(fold, t, rx, left);
      ghost var before := left;
      FoundIsFirst(fold, t, rx, left, Remaining(Indices(|rx|), verdicts), k);
      var v := Dropped;
      if k < |left| && rx[left[k]].timestamp - t.timestamp <= MAX_LATENCY_MS {
        v := Matched(left[k]);
        MirrorsWithout(left, |rx|, Remaining(Indices(|rx|), verdicts), k);
        left := left[..k] + left[k + 1..];
      }
      ReachedNext(fold, tx, rx, n, before, verdicts, dropList, latencyList, left, v);
      dropList := dropList + DropOf(t, v);
      latencyList := latencyList + LatencyOf(t, rx, v);
      verdicts := verdicts + [v];
      n := n + 1;
    }
    assert tx[..n] == tx;
    GreedyIsFeasible(fold, tx, rx, verdicts);
    LatencyFrameIsRight(fold, tx, rx, verdicts);
    DropFrameIsRight(tx, verdicts);
    drops := if |dropList| > 1 then dropList else [];
    latencies := if |latencyList| > 1 then latencyList else [];
  }

  // ---------- the loop is optimal ----------

  /**
   A one-to-one pairing of transmit rows n.. with remaining receive rows, every pair feasible.
   */
  ghost predicate IsPairing(fold: string -> string, tx: seq<Row>, rx: seq<Row>, n: nat, left: set<nat>, m: map<nat, nat>) {
    && (forall i :: i in m ==> n <= i < |tx| && m[i] in left && m[i] < |rx| && Feasible(fold, tx[i], rx[m[i]]))
    && (forall i, k :: i in m && k in m && m[i] == m[k] ==> i == k)
  }

  ghost function MatchCount(verdicts: seq<Verdict>): nat {
    if verdicts == [] then 0 else (if verdicts[0].Matched? then 1 else 0) + MatchCount(verdicts[1..])
  }

  /** A dropped row could not have been paired with anything that was left. */
  lemma DroppedHasNoPartner(fold: string -> string, tx: seq<Row>, rx: seq<Row>, n: nat, left: set<nat>, m: map<nat, nat>)
    requires n < |tx| && Ordered(fold, rx)
    requires Decides(fold, tx[n], rx, left, Dropped)
    requires IsPairing(fold, tx, rx, n, left, m)
    ensures n !in m
  {
    if n in m {
      var s := Candidates(fold, tx[n], rx, left);
      assert m[n] in s;
      var f := Least(s);
      assert IsFirst(f, s);
    }
  }

  lemma OneLess(m: map<nat, nat>, i: nat)
    ensures |m| <= |m - {i}| + 1
  {
    assert (m - {i}).Keys == m.Keys - {i};
    assert i in m ==> m.Keys == (m - {i}).Keys + {i};
    assert i !in m ==> m - {i} == m;
  }

  lemma MovedKeepsSize(m: map<nat, nat>, u: nat, j: nat)
    requires u in m
    ensures |m[u := j]| == |m|
  {
    assert m[u := j].Keys == m.Keys;
  }

  lemma Forget(fold: string -> string, tx: seq<Row>, rx: seq<Row>, n: nat, left: set<nat>, m: map<nat, nat>, i: nat, j: nat)
    returns (m': map<nat, nat>)
    requires IsPairing(fold, tx, rx, n, left, m)
    requires n in m ==> i == n
    requires forall k :: k in m && m[k] == j ==> k == i
    ensures IsPairing(fold, tx, rx, n + 1, left - {j}, m')
    ensures |m| <= |m'| + 1
  {
    m' := m - {i};
    OneLess(m, i);
  }

  lemma MovedStaysInjective(m: map<nat, nat>, n: nat, u: nat)
    requires n in m && u in m && u != n && forall i, k :: i in m && k in m && m[i] == m[k] ==> i == k
    ensures var m' := (m - {n})[u := m[n]];
            (forall i, k :: i in m' && k in m' && m'[i] == m'[k] ==> i == k) &&
            forall i :: i in m' ==> m'[i] != m[u]
  {
  }

  lemma TakeOver(fold: string -> string, tx: seq<Row>, rx: seq<Row>, n: nat, left: set<nat>, m: map<nat, nat>, u: nat)
    returns (m': map<nat, nat>)
    requires n < |tx| && Ordered(fold, tx)
    requires IsPairing(fold, tx, rx, n, left, m)
    requires n in m && u in m && u != n && SameText(fold, tx[n], rx[m[u]])
    ensures IsPairing(fold, tx, rx, n + 1, left - {m[u]}, m')
    ensures |m| <= |m'| + 1
  {
    m' := (m - {n})[u := m[n]];
    MovedStaysInjective(m, n, u);
    forall i | i in m'
      ensures n + 1 <= i < |tx| && m'[i] in left - {m[u]} && m'[i] < |rx| && Feasible(fold, tx[i], rx[m'[i]])
    {
      if i == u { assert SameText(fold, tx[n], tx[u]); } else { assert i in m && m'[i] == m[i]; }
    }
    MovedKeepsSize(m - {n}, u, m[n]);
    OneLess(m, n);
  }

  /**
   The exchange step: when the loop pairs row n with j, any pairing can be turned into one that
   does without n and j and is at most one pair smaller.
   */
  lemma Exchange(fold: string -> string, tx: seq<Row>, rx: seq<Row>, n: nat, left: set<nat>, m: map<nat, nat>, j: nat)
    returns (m': map<nat, nat>)
    requires n < |tx| && Ordered(fold, tx)
    requires Decides(fold, tx[n], rx, left, Matched(j))
    requires IsPairing(fold, tx, rx, n, left, m)
    ensures IsPairing(fold, tx, rx, n + 1, left - {j}, m')
    ensures |m| <= |m'| + 1
  {
    if u :| u in m && m[u] == j {
      if n in m && u != n {
        m' := TakeOver(fold, tx, rx, n, left, m, u);
      } else {
        m' := Forget(fold, tx, rx, n, left, m, u, j);
      }
    } else {
      m' := Forget(fold, tx, rx, n, left, m, n, j);
    }
  }

  lemma {:induction false} GreedyBeats(fold: string -> string, tx: seq<Row>, rx: seq<Row>, n: nat, left: set<nat>,
                                       verdicts: seq<Verdict>, m: map<nat, nat>)
    requires n <= |tx| && Ordered(fold, tx) && Ordered(fold, rx)
    requires IsGreedy(fold, tx[n..], rx, left, verdicts)
    requires IsPairing(fold, tx, rx, n, left, m)
    ensures |m| <= MatchCount(verdicts)
    decreases |tx| - n
  {
    if n == |tx| {
      assert m.Keys == {};
    } else {
      assert tx[n..][0] == tx[n] && tx[n..][1..] == tx[n + 1..];
      if verdicts[0].Matched? {
        var m' := Exchange(fold, tx, rx, n, left, m, verdicts[0].rx);
        GreedyBeats(fold, tx, rx, n + 1, left - {verdicts[0].rx}, verdicts[1..], m');
      } else {
        DroppedHasNoPartner(fold, tx, rx, n, left, m);
        GreedyBeats(fold, tx, rx, n + 1, left, verdicts[1..], m);
      }
    }
  }

  /** The pairing that a list of verdicts stands for. */
  ghost function PairingOf(verdicts: seq<Verdict>): map<nat, nat> {
    map i | 0 <= i < |verdicts| && verdicts[i].Matched? :: verdicts[i].rx
  }

  lemma {:induction false} GreedyUsesWhatIsLeft(fold: string -> string, tx: seq<Row>, rx: seq<Row>, left: set<nat>,
                                                verdicts: seq<Verdict>, i: nat)
    requires IsGreedy(fold, tx, rx, left, verdicts)
    requires i < |verdicts| && verdicts[i].Matched?
    ensures verdicts[i].rx in left && verdicts[i].rx < |rx| && Feasible(fold, tx[i], rx[verdicts[i].rx])
    ensures forall k :: 0 <= k < i && verdicts[k].Matched? ==> verdicts[k].rx != verdicts[i].rx
    decreases |tx|
  {
    if i > 0 {
      GreedyUsesWhatIsLeft(fold, tx[1..], rx, Without(left, verdicts[0]), verdicts[1..], i - 1);
      forall k | 0 <= k < i && verdicts[k].Matched? ensures verdicts[k].rx != verdicts[i].rx {
        if k > 0 { assert verdicts[1..][k - 1] == verdicts[k]; }
      }
    }
  }

  lemma {:induction false} PairingSize(verdicts: seq<Verdict>)
    ensures |PairingOf(verdicts)| == MatchCount(verdicts)
  {
    if verdicts != [] {
      var n := |verdicts| - 1;
      PairingSize(verdicts[..n]);
      CountLast(verdicts);
      var m, m' := PairingOf(verdicts[..n]), PairingOf(verdicts);
      if verdicts[n].Matched? {
        assert m'.Keys == m.Keys + {n} && n !in m.Keys;
      } else {
        assert m'.Keys == m.Keys;
      }
      assert |m| == |m.Keys| && |m'| == |m'.Keys|;
    }
  }

  lemma {:induction false} CountLast(verdicts: seq<Verdict>)
    requires verdicts != []
    ensures var n := |verdicts| - 1;
            MatchCount(verdicts) == MatchCount(verdicts[..n]) + (if verdicts[n].Matched? then 1 else 0)
  {
    var n := |verdicts| - 1;
    if n > 0 {
      CountLast(verdicts[1..]);
      assert verdicts[1..][..n - 1] == verdicts[..n][1..];
    }
  }

  /** Transmit rows paired one to one with receive rows of the same folded text, received at most 200 ms later. */
  ghost predicate IsDelivery(fold: string -> string, tx: seq<Row>, rx: seq<Row>, m: map<nat, nat>) {
    (forall i :: i in m ==>
       i < |tx| && m[i] < |rx| && fold(tx[i].text) == fold(rx[m[i]].text) && rx[m[i]].timestamp - tx[i].timestamp <= 200) &&
    forall i, k :: i in m && k in m && m[i] == m[k] ==> i == k
  }

  lemma DeliveriesArePairings(fold: string -> string, tx: seq<Row>, rx: seq<Row>, m: map<nat, nat>)
    ensures IsDelivery(fold, tx, rx, m) <==> IsPairing(fold, tx, rx, 0, Indices(|rx|), m)
  {
  }

  /**
   Every transmit row gets exactly one verdict, no receive row is used twice, every match is
   feasible, and when equal texts are in timestamp order in both logs no one-to-one pairing
   matches more rows than the loop does.
   */
  lemma GreedyIsOptimal(fold: string -> string, tx: seq<Row>, rx: seq<Row>, verdicts: seq<Verdict>)
    requires IsGreedy(fold, tx, rx, Indices(|rx|), verdicts)
    ensures |verdicts| == |tx|
    ensures IsDelivery(fold, tx, rx, PairingOf(verdicts))
    ensures Ordered(fold, tx) && Ordered(fold, rx) ==>
              forall m :: IsDelivery(fold, tx, rx, m) ==> |m| <= |PairingOf(verdicts)|
  {
    forall i | 0 <= i < |verdicts| && verdicts[i].Matched?
      ensures verdicts[i].rx in Indices(|rx|) && verdicts[i].rx < |rx| && Feasible(fold, tx[i], rx[verdicts[i].rx])
      ensures forall k :: 0 <= k < i && verdicts[k].Matched? ==> verdicts[k].rx != verdicts[i].rx
    {
      GreedyUsesWhatIsLeft(fold, tx, rx, Indices(|rx|), verdicts, i);
    }
    PairingSize(verdicts);
    DeliveriesArePairings(fold, tx, rx, PairingOf(verdicts));
    if Ordered(fold, tx) && Ordered(fold, rx) {
      assert tx[0..] == tx;
      forall m | IsDelivery(fold, tx, rx, m) ensures |m| <= |PairingOf(verdicts)| {
        DeliveriesArePairings(fold, tx, rx, m);
        GreedyBeats(fold, tx, rx, 0, Indices(|rx|), verdicts, m);
      }
    }
  }

  lemma {:induction false} RowsAreCounted(tx: seq<Row>, rx: seq<Row>, left: set<nat>, verdicts: seq<Verdict>, fold: string -> string)
    requires IsGreedy(fold, tx, rx, left, verdicts)
    ensures |LatencyRows(tx, rx, verdicts)| == MatchCount(verdicts)
    ensures |DropRows(tx, verdicts)| + |LatencyRows(tx, rx, verdicts)| == |tx|
    decreases |tx|
  {
    if tx != [] {
      RowsAreCounted(tx[1..], rx, Without(left, verdicts[0]), verdicts[1..], fold);
    }
  }

  /** The order is needed on either side: two rows each way, one of them out of order. */
  lemma OrderIsNeeded(fold: string -> string)
    ensures var tx := [Row(0, "", "m")]; var rx := [Row(201, "", "m"), Row(0, "", "m")];
            && Ordered(fold, tx) && IsGreedy(fold, tx, rx, Indices(2), [Dropped])
            && IsDelivery(fold, tx, rx, map[0 := 1])
    ensures var tx := [Row(100, "", "m"), Row(0, "", "m")]; var rx := [Row(200, "", "m"), Row(300, "", "m")];
            && Ordered(fold, rx) && IsGreedy(fold, tx, rx, Indices(2), [Matched(0), Dropped])
            && IsDelivery(fold, tx, rx, map[0 := 1, 1 := 0])
  {
    var tx := [Row(100, "", "m"), Row(0, "", "m")];
    var rx := [Row(200, "", "m"), Row(300, "", "m")];
    assert tx[1..] == [Row(0, "", "m")] && tx[1..][1..] == [];
    assert [Matched(0), Dropped][1..] == [Dropped] && [Dropped][1..] == [];
    var s := Candidates(fold, tx[0], rx, Indices(2));
    assert 0 in s && IsFirst(0, s);
    var s1 := Candidates(fold, tx[1], rx, Indices(2) - {0});
    assert 1 in s1;
    assert Decides(fold, tx[1], rx, Indices(2) - {0}, Dropped);
    assert IsGreedy(fold, tx[1..], rx, Indices(2) - {0}, [Dropped]);
    assert [Row(0, "", "m")][1..] == [];
    var rx' := [Row(201, "", "m"), Row(0, "", "m")];
    assert 0 in Candidates(fold, Row(0, "", "m"), rx', Indices(2));
  }
}
