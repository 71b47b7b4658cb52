/**
 The check of an executable's path before a plugin is started
 (src/tmx/TmxCore/src/PluginMonitor.cpp) and the tokenizer in front of it
 (src/tmx/TmxCore/src/utils/StringUtils.cpp).
 */
module PathCheck {
  import opened Texts

  // ---------- what the check is for ----------

  /** Lexical resolution: "." and an empty token stay, ".." goes up, a name goes down. */
  datatype Place = Outside | Inside(path: seq<string>)

  function Moved(at: Place, token: string): Place {
    if at.Outside? || token == "." || token == "" then at
    else if token != ".." then Inside(at.path + [token])
    else if at.path == [] then Outside
    else Inside(at.path[..|at.path| - 1])
  }

  /** Once outside the plugin directory a path stays outside. */
  function Resolve(at: Place, tokens: seq<string>): Place
    decreases |tokens|
  {
    if tokens == [] then at else Resolve(Moved(at, tokens[0]), tokens[1..])
  }

  /** A path is good when it never leaves the plugin directory and ends strictly below it. */
  predicate StaysBelow(tokens: seq<string>) {
    var p := Resolve(Inside([]), tokens);
    p.Inside? && p.path != []
  }

  // ---------- the depth counter ----------

  function Rise(token: string): int {
    if token == "." then 0 else if token == ".." then -1 else 1
  }

  function EndDepth(tokens: seq<string>): int {
    if tokens == [] then 0 else Rise(tokens[0]) + EndDepth(tokens[1..])
  }

  /** The lowest depth on the way, the start included. */
  function Lowest(tokens: seq<string>): int {
    if tokens == [] then 0
    else
      var low := Rise(tokens[0]) + Lowest(tokens[1..]);
      if low < 0 then low else 0
  }

  predicate Accepts(tokens: seq<string>) {
    EndDepth(tokens) >= 1 && Lowest(tokens) >= 0
  }

  /** The loop with its depth counter and its sticky flag. */
  method CheckExecutable(tokens: seq<string>) returns (accepted: bool)
    ensures accepted <==> Accepts(tokens)
    ensures "" !in tokens ==> (accepted <==> StaysBelow(tokens))
  {
    var depth := 0;
    var outOfRoot := false;
    var i := 0;
    while i < |tokens|
      invariant 0 <= i <= |tokens|
      invariant depth + EndDepth(tokens[i..]) == EndDepth(tokens)
      invariant outOfRoot || depth + Lowest(tokens[i..]) < 0 <==> Lowest(tokens) < 0
      invariant depth < 0 ==> outOfRoot
    {
      assert tokens[i..][1..] == tokens[i + 1..];
      if tokens[i] != "." {
        if tokens[i] == ".." { depth := depth - 1; } else { depth := depth + 1; }
      }
      if depth < 0 { outOfRoot := true; }
      i := i + 1;
    }
    if "" !in tokens { CounterIsResolution(tokens); }
    accepted := !(depth < 1 || outOfRoot);
  }

  lemma {:induction false} StaysOutside(tokens: seq<string>)
    ensures Resolve(Outside, tokens) == Outside
  {
    if tokens != [] { StaysOutside(tokens[1..]); }
  }

  /** The counter follows the length of the resolved path, and its low point tells whether there is one. */
  lemma {:induction false} Levels(path: seq<string>, tokens: seq<string>)
    requires "" !in tokens
    ensures var p := Resolve(Inside(path), tokens);
            (p.Inside? <==> |path| + Lowest(tokens) >= 0) && (p.Inside? ==> |p.path| == |path| + EndDepth(tokens))
    decreases |tokens|
  {
    if tokens != [] {
      var next := Moved(Inside(path), tokens[0]);
      if next.Inside? {
        Levels(next.path, tokens[1..]);
      } else {
        StaysOutside(tokens[1..]);
        LowestIsNotPositive(tokens[1..]);
      }
    }
  }

  lemma LowestIsNotPositive(tokens: seq<string>)
    ensures Lowest(tokens) <= 0
  {
  }

  /** For tokens that are not empty the counter decides exactly as resolution does. */
  lemma CounterIsResolution(tokens: seq<string>)
    requires "" !in tokens
    ensures Accepts(tokens) <==> StaysBelow(tokens)
  {
    Levels([], tokens);
  }

  // ---------- the tokenizer ----------

  /** The pieces between separators; a string that ends in one has no last piece. */
  function Pieces(s: string, sep: set<char>): seq<string> {
    PiecesFrom("", s, sep)
  }

  function PiecesFrom(piece: string, s: string, sep: set<char>): seq<string>
    decreases |s|
  {
    if s == [] then (if piece == "" then [] else [piece])
    else if s[0] in sep then [piece] + PiecesFrom("", s[1..], sep)
    else PiecesFrom(piece + [s[0]], s[1..], sep)
  }

  /**
   What the loop that removes empty pieces really leaves.  After an erasure the iterator goes back
   to the start and is advanced at once, so whatever has moved into first place is not looked at.
   */
  function Cleaned(ps: seq<string>): seq<string> {
    if ps == [] then []
    else if ps[0] != "" then [ps[0]] + NonEmpty(ps[1..])
    else if |ps| == 1 then []
    else [ps[1]] + NonEmpty(ps[2..])
  }

  /** What will be left of `ps`, before and after the first erasure. */
  function Outcome(ps: seq<string>, erased: bool): seq<string> {
    if !erased || ps == [] then Cleaned(ps) else [ps[0]] + NonEmpty(ps[1..])
  }

  lemma NonEmptyMiddle(a: seq<string>, b: seq<string>)
    ensures NonEmpty(a + [""] + b) == NonEmpty(a + b)
  {
    NonEmptyAppend(a + [""], b);
    NonEmptyAppend(a, [""]);
    NonEmptyAppend(a, b);
    assert NonEmpty([""]) == [] && NonEmpty(a) + [] == NonEmpty(a);
  }

  lemma Erased(ps: seq<string>, at: nat, erased: bool)
    requires at < |ps| && ps[at] == "" && (erased ==> at >= 1)
    requires at >= 1 && !erased ==> ps[0] != ""
    ensures Outcome(ps[..at] + ps[at + 1..], true) == Outcome(ps, erased)
  {
    var rest := ps[..at] + ps[at + 1..];
    if at == 0 {
      assert rest == ps[1..];
      if rest != [] { assert rest[1..] == ps[2..]; }
    } else {
      var a, b := ps[1..at], ps[at + 1..];
      assert ps[1..] == a + [""] + b && rest[1..] == a + b && rest[0] == ps[0];
      NonEmptyMiddle(a, b);
    }
  }

  lemma NothingToErase(ps: seq<string>, erased: bool)
    requires forall i :: (if erased then 1 else 0) <= i < |ps| ==> ps[i] != ""
    ensures Outcome(ps, erased) == ps
  {
    if ps != [] {
      assert forall i :: 0 <= i < |ps[1..]| ==> ps[1..][i] == ps[i + 1];
      assert ps == [ps[0]] + ps[1..];
    }
  }

  method RemoveEmpty(pieces: seq<string>) returns (results: seq<string>)
    ensures results == Cleaned(pieces)
  {
    results := pieces;
    var at := 0;
    ghost var erased := false;
    while at < |results|
      invariant 0 <= at && (erased ==> at >= 1)
      invariant Outcome(results, erased) == Cleaned(pieces)
      invariant forall i :: (if erased then 1 else 0) <= i < at && i < |results| ==> results[i] != ""
      decreases |results|, |results| - at
    {
      if results[at] == "" {
        Erased(results, at, erased);
        results := results[..at] + results[at + 1..];
        erased := true;
        at := 0;
      }
      at := at + 1;
    }
    NothingToErase(results, erased);
  }

  /** tokenize with removeEmpty set. */
  method Tokenize(s: string, sep: set<char>) returns (results: seq<string>)
    ensures results == Cleaned(Pieces(s, sep))
  {
    var pieces: seq<string> := [];
    var start, i := 0, 0;
    while i < |s|
      invariant 0 <= start <= i <= |s|
      invariant pieces + PiecesFrom(s[start..i], s[i..], sep) == Pieces(s, sep)
    {
      assert s[i..][0] == s[i] && s[i..][1..] == s[i + 1..];
      assert s[start..i + 1] == s[start..i] + [s[i]] && s[i + 1..i + 1] == "";
      if s[i] in sep {
        pieces := pieces + [s[start..i]];
        start := i + 1;
      }
      i := i + 1;
    }
    assert s[i..] == "" && (s[start..i] == "" <==> i == start);
    assert pieces + [] == pieces;
    if i != start { pieces := pieces + [s[start..i]]; }
    results := RemoveEmpty(pieces);
  }

  lemma TwoEmptyPieces(ps: seq<string>)
    requires |ps| >= 2 && ps[0] == "" && ps[1] == ""
    ensures NonEmpty(ps) == NonEmpty(ps[2..]) && Cleaned(ps) == [""] + NonEmpty(ps)
  {
    assert ps[1..][0] == ps[1] && ps[1..][1..] == ps[2..];
    assert NonEmpty(ps[1..]) == [] + NonEmpty(ps[2..]);
  }

  lemma OneEmptyPiece(ps: seq<string>)
    requires !(|ps| >= 2 && ps[0] == "" && ps[1] == "")
    ensures Cleaned(ps) == NonEmpty(ps)
  {
    if |ps| >= 2 && ps[0] == "" {
      assert ps[1..][0] == ps[1] && ps[1..][1..] == ps[2..];
    }
  }

  /** An empty token is left exactly when the first two pieces are empty: the string starts with two separators. */
  lemma EmptyTokenIsLeftExactlyWhen(ps: seq<string>)
    ensures "" in Cleaned(ps) <==> |ps| >= 2 && ps[0] == "" && ps[1] == ""
    ensures !(|ps| >= 2 && ps[0] == "" && ps[1] == "") ==> Cleaned(ps) == NonEmpty(ps)
    ensures |ps| >= 2 && ps[0] == "" && ps[1] == "" ==> Cleaned(ps) == [""] + NonEmpty(ps)
  {
    if |ps| >= 2 && ps[0] == "" && ps[1] == "" { TwoEmptyPieces(ps); } else { OneEmptyPiece(ps); }
  }

  /** Each piece with a separator behind it. */
  function Separated(ps: seq<string>, c: char): string {
    if ps == [] then "" else ps[0] + [c] + Separated(ps[1..], c)
  }

  /** The text, with a separator at its end unless it is empty. */
  function Closed(text: string, c: char): string {
    if text == "" || text[|text| - 1] == c then text else text + [c]
  }

  lemma ClosedBehind(piece: string, c: char, rest: string)
    ensures Closed(piece + ([c] + rest), c) == piece + [c] + Closed(rest, c)
  {
    var text := piece + ([c] + rest);
    assert text == piece + [c] + rest;
    assert text[|text| - 1] == if rest == "" then c else rest[|rest| - 1];
  }

  lemma {:induction false} PiecesKeepText(piece: string, s: string, c: char)
    requires c !in piece
    ensures Separated(PiecesFrom(piece, s, {c}), c) == Closed(piece + s, c)
    decreases |s|
  {
    if s == "" {
      assert piece + s == piece && [piece][1..] == [];
    } else if s[0] == c {
      var rest := PiecesFrom("", s[1..], {c});
      PiecesKeepText("", s[1..], c);
      assert "" + s[1..] == s[1..] && ([piece] + rest)[1..] == rest;
      ClosedBehind(piece, c, s[1..]);
      assert s == [c] + s[1..];
    } else {
      PiecesKeepText(piece + [s[0]], s[1..], c);
      assert (piece + [s[0]]) + s[1..] == piece + s;
    }
  }

  lemma {:induction false} PiecesHaveNone(piece: string, s: string, c: char)
    requires c !in piece
    ensures forall i :: 0 <= i < |PiecesFrom(piece, s, {c})| ==> c !in PiecesFrom(piece, s, {c})[i]
    decreases |s|
  {
    if s != "" {
      if s[0] == c { PiecesHaveNone("", s[1..], c); } else { PiecesHaveNone(piece + [s[0]], s[1..], c); }
    }
  }

  /** The pieces hold no separator, and with one behind each they are the text, closed by one. */
  lemma PiecesAreTheText(s: string, c: char)
    ensures var ps := Pieces(s, {c});
            && (forall i :: 0 <= i < |ps| ==> c !in ps[i])
            && Separated(ps, c) == s + if s == "" || s[|s| - 1] == c then "" else [c]
  {
    PiecesKeepText("", s, c);
    PiecesHaveNone("", s, c);
    assert "" + s == s;
  }

  lemma PiecesStartEmpty(s: string, sep: set<char>)
    ensures var ps := Pieces(s, sep);
            |ps| >= 2 && ps[0] == "" && ps[1] == "" <==> |s| >= 2 && s[0] in sep && s[1] in sep
  {
    if s != [] && s[0] !in sep {
      FirstPiece(s, sep);
    } else if s != [] {
      assert Pieces(s, sep) == [""] + PiecesFrom("", s[1..], sep);
      if |s| >= 2 {
        if s[1] in sep {
          assert PiecesFrom("", s[1..], sep)[0] == "";
        } else {
          FirstPiece(s[1..], sep);
        }
      }
    }
  }

  lemma FirstPiece(s: string, sep: set<char>)
    requires s != [] && s[0] !in sep
    ensures PiecesFrom("", s, sep) != [] && PiecesFrom("", s, sep)[0] != ""
  {
    assert "" + [s[0]] == [s[0]];
    FirstPieceGrows([s[0]], s[1..], sep);
  }

  lemma {:induction false} FirstPieceGrows(piece: string, s: string, sep: set<char>)
    requires piece != ""
    ensures PiecesFrom(piece, s, sep) != [] && PiecesFrom(piece, s, sep)[0] != ""
    decreases |s|
  {
    if s != [] && s[0] !in sep { FirstPieceGrows(piece + [s[0]], s[1..], sep); }
  }

  // ---------- the check on the executable's name ----------

  function Tokens(name: string): seq<string> {
    Cleaned(Pieces(name, {'/'}))
  }

  /** What follows a leading empty token, with the level it is counted for. */
  lemma AfterEmptyToken(rest: seq<string>)
    requires "" !in rest
    ensures Accepts([""] + rest) <==> EndDepth(rest) >= 0 && Lowest(rest) >= -1
    ensures StaysBelow([""] + rest) <==> EndDepth(rest) >= 1 && Lowest(rest) >= 0
  {
    assert ([""] + rest)[1..] == rest;
    CounterIsResolution(rest);
  }

  lemma {:induction false} NonEmptyHasNone(ps: seq<string>)
    ensures "" !in NonEmpty(ps)
  {
    if ps != [] { NonEmptyHasNone(ps[1..]); }
  }

  /** A name that starts with two slashes and needs the level that the empty token is counted for. */
  predicate UsesSpareLevel(name: string) {
    |name| >= 2 && name[0] == '/' && name[1] == '/' && Tokens(name) != [] &&
    var rest := Tokens(name)[1..];
    EndDepth(rest) >= 0 && Lowest(rest) >= -1 && (EndDepth(rest) == 0 || Lowest(rest) == -1)
  }

  /** The check is right about a name exactly unless it uses the spare level. */
  lemma CheckIsRightExactlyWhen(name: string)
    ensures (Accepts(Tokens(name)) <==> StaysBelow(Tokens(name))) <==> !UsesSpareLevel(name)
  {
    var ps := Pieces(name, {'/'});
    PiecesStartEmpty(name, {'/'});
    EmptyTokenIsLeftExactlyWhen(ps);
    if |ps| >= 2 && ps[0] == "" && ps[1] == "" {
      var rest := NonEmpty(ps[2..]);
      NonEmptyHasNone(ps[2..]);
      AfterEmptyToken(rest);
      assert Tokens(name) == [""] + rest && Tokens(name)[1..] == rest;
      LowestIsNotPositive(rest);
    } else {
      CounterIsResolution(Tokens(name));
    }
  }

  /** Such a name: it is accepted, and resolves to a file outside the plugin directory. */
  lemma OneClimbIsMissed()
    ensures Accepts(["", "..", "x"]) && Resolve(Inside([]), ["", "..", "x"]) == Outside
    ensures Tokens("//../x") == ["", "..", "x"]
  {
    var rest := ["..", "x"];
    assert rest[1..] == ["x"] && ["x"][1..] == [];
    assert EndDepth(rest) == 0 && Lowest(rest) == -1;
    assert ["", "..", "x"] == [""] + rest;
    AfterEmptyToken(rest);
    assert ["", "..", "x"][1..] == rest;
    StaysOutside(["x"]);
    PiecesOfClimb();
  }

  lemma PiecesOfClimb()
    ensures Pieces("//../x", {'/'}) == ["", "", "..", "x"]
    ensures Cleaned(["", "", "..", "x"]) == ["", "..", "x"]
  {
    PiecesAfterSlashes();
    assert "//../x"[1..] == "/../x" && "/../x"[1..] == "../x";
    assert PiecesFrom("", "/../x", {'/'}) == ["", "..", "x"];
    assert ["", "", "..", "x"][2..] == ["..", "x"];
    assert NonEmpty(["..", "x"]) == ["..", "x"];
  }

  lemma PiecesAfterSlashes()
    ensures PiecesFrom("", "../x", {'/'}) == ["..", "x"]
  {
    var sep := {'/'};
    assert "../x"[1..] == "./x" && "./x"[1..] == "/x" && "/x"[1..] == "x" && "x"[1..] == "";
    assert "" + ['.'] == "." && "." + ['.'] == ".." && "" + ['x'] == "x";
    assert PiecesFrom("", "x", sep) == PiecesFrom("x", "", sep) == ["x"];
    assert PiecesFrom("..", "/x", sep) == ["..", "x"];
  }
}
