/**
 Texts on the wire: frames, and the chunks in which a stream of them arrives.
 */
module Texts {
  import opened Sets

  const STX: char := '\U{2}'
  const ETX: char := '\U{3}'

  function Framed(m: string): string {
    [STX] + m + [ETX]
  }

  function FramedAll(ms: seq<string>): string {
    if ms == [] then "" else Framed(ms[0]) + FramedAll(ms[1..])
  }

  /** The stream that some chunks make. */
  function Joined(chunks: seq<string>): string {
    if chunks == [] then "" else Joined(chunks[..|chunks| - 1]) + chunks[|chunks| - 1]
  }

  function NonEmpty(ps: seq<string>): (r: seq<string>)
    ensures forall i :: 0 <= i < |r| ==> r[i] != ""
    ensures (forall i :: 0 <= i < |ps| ==> ps[i] != "") ==> r == ps
  {
    if ps == [] then [] else (if ps[0] == "" then [] else [ps[0]]) + NonEmpty(ps[1..])
  }

  ghost function FullAt(ps: seq<string>): set<nat> {
    set i: nat | i < |ps| && ps[i] != ""
  }

  ghost predicate Picks(at: seq<nat>, r: seq<string>, ps: seq<string>) {
    |at| == |r| && forall j :: 0 <= j < |at| ==> at[j] < |ps| && r[j] == ps[at[j]]
  }

  lemma FullNext(ps: seq<string>, p: string)
    ensures FullAt(ps + [p]) == FullAt(ps) + if p != "" then {|ps|} else {}
  {
  }

  /** Exactly the pieces that are not empty, in order. */
  lemma {:induction false} NonEmptyIsListed(ps: seq<string>) returns (at: seq<nat>)
    ensures Lists(at, FullAt(ps)) && Picks(at, NonEmpty(ps), ps)
    decreases |ps|
  {
    if ps == [] {
      at := [];
    } else {
      var n := |ps| - 1;
      var some, p := ps[..n], ps[n];
      at := NonEmptyIsListed(some);
      assert ps == some + [p] && [p][1..] == [];
      NonEmptyAppend(some, [p]);
      FullNext(some, p);
      if p != "" {
        ListsNext(at, FullAt(some), n);
        at := at + [n];
      }
    }
  }

  lemma {:induction false} NonEmptyAppend(a: seq<string>, b: seq<string>)
    ensures NonEmpty(a + b) == NonEmpty(a) + NonEmpty(b)
  {
    if a == [] {
      assert a + b == b;
    } else {
      assert (a + b)[1..] == a[1..] + b;
      NonEmptyAppend(a[1..], b);
    }
  }
}
