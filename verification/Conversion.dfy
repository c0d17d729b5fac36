// Strings cut at separators, and the PostgreSQL array printer and parser of utilities/conversion.hpp.
module Text {
  import opened Prelude

  /** std::string::find from a position: the first occurrence at or after it. */
  function Find(s: string, c: char, from: nat): (k: Option<nat>)
    ensures k.Some? ==> from <= k.value < |s|
    decreases |s| - from
  {
    if from >= |s| then None
    else if s[from] == c then Some(from)
    else Find(s, c, from + 1)
  }

  lemma {:induction false} Found(s: string, c: char, from: nat)
    ensures var k := Find(s, c, from);
            && (k.Some? ==> s[k.value] == c)
            && forall j :: from <= j < (if k.Some? then k.value else |s|) ==> s[j] != c
    decreases |s| - from
  {
    if from < |s| && s[from] != c {
      Found(s, c, from + 1);
    }
  }

  /** Find's answer is the only position with a first occurrence. */
  lemma {:induction false} FoundOnly(s: string, c: char, from: nat, k: nat)
    requires from <= k < |s| && s[k] == c && forall j :: from <= j < k ==> s[j] != c
    ensures Find(s, c, from) == Some(k)
  {
    Found(s, c, from);
  }

  lemma {:induction false} FoundNone(s: string, c: char, from: nat)
    requires forall j :: from <= j < |s| ==> s[j] != c
    ensures Find(s, c, from) == None
  {
    Found(s, c, from);
  }

  predicate CommaFree(ts: seq<string>) {
    forall t :: t in ts ==> ',' !in t
  }

  /** The strings with a comma between neighbours. */
  function Join(ts: seq<string>): string {
    if |ts| == 0 then ""
    else if |ts| == 1 then ts[0]
    else ts[0] + "," + Join(ts[1..])
  }

  /** The pieces between commas: one more than there are commas. */
  function Pieces(s: string): (ts: seq<string>)
    ensures |ts| >= 1
    decreases |s|
  {
    match Find(s, ',', 0)
    case None => [s]
    case Some(k) => [s[..k]] + Pieces(s[k + 1..])
  }

  lemma JoinCons(t: string, ts: seq<string>)
    requires ts != []
    ensures Join([t] + ts) == t + "," + Join(ts)
  {
  }

  /** The pieces hold no comma, and joining them gives the string back. */
  lemma {:induction false} PiecesJoin(s: string)
    ensures CommaFree(Pieces(s)) && Join(Pieces(s)) == s
    decreases |s|
  {
    Found(s, ',', 0);
    match Find(s, ',', 0)
    case None =>
    case Some(k) =>
      PiecesJoin(s[k + 1..]);
      JoinCons(s[..k], Pieces(s[k + 1..]));
      assert s == s[..k] + "," + s[k + 1..];
  }

  /** The first comma of t + "," + more, when t holds none, is the one after t. */
  lemma FirstComma(t: string, more: string)
    requires ',' !in t
    ensures Find(t + "," + more, ',', 0) == Some(|t|)
    ensures (t + "," + more)[..|t|] == t && (t + "," + more)[|t| + 1..] == more
  {
    var s := t + "," + more;
    assert forall j :: 0 <= j < |t| ==> s[j] == t[j];
    FoundOnly(s, ',', 0, |t|);
  }

  /** Pieces is the only cutting that does this: any comma-free list is cut out of its own join. */
  lemma {:induction false} JoinPieces(ts: seq<string>)
    requires ts != [] && CommaFree(ts)
    ensures Pieces(Join(ts)) == ts
    decreases |ts|
  {
    if |ts| == 1 {
      assert ts[0] in ts;
      FoundNone(ts[0], ',', 0);
      assert ts == [ts[0]];
    } else {
      assert ts[0] in ts;
      FirstComma(ts[0], Join(ts[1..]));
      JoinPieces(ts[1..]);
      assert ts == [ts[0]] + ts[1..];
    }
  }

  lemma {:induction false} JoinSnoc(ts: seq<string>, t: string)
    ensures Join(ts + [t]) == if ts == [] then t else Join(ts) + "," + t
    decreases |ts|
  {
    if |ts| == 1 {
      assert (ts + [t])[1..] == [t];
    } else if |ts| > 1 {
      assert (ts + [t])[1..] == ts[1..] + [t];
      JoinSnoc(ts[1..], t);
    }
  }

  /** Searching on from a position is searching the rest of the string. */
  lemma FindShift(s: string, c: char, from: nat)
    requires from <= |s|
    ensures Find(s, c, from).None? ==> Find(s[from..], c, 0).None?
    ensures Find(s, c, from).Some? ==> Find(s[from..], c, 0) == Some(Find(s, c, from).value - from)
  {
    Found(s, c, from);
    var rest := s[from..];
    assert forall j :: 0 <= j < |rest| ==> rest[j] == s[from + j];
    var here := Find(s, c, from);
    if here.Some? {
      FoundOnly(rest, c, 0, here.value - from);
    } else {
      FoundNone(rest, c, 0);
    }
  }

  lemma Slices<T>(s: seq<T>, from: nat, k: nat)
    requires from <= k < |s|
    ensures s[from..][..k - from] == s[from..k] && s[from..][k - from + 1..] == s[k + 1..]
  {
  }

  lemma PiecesFrom(s: string, from: nat)
    requires from <= |s|
    ensures var next := Find(s, ',', from);
            Pieces(s[from..]) == if next.None? then [s[from..]] else [s[from..next.value]] + Pieces(s[next.value + 1..])
  {
    hide Find;
    FindShift(s, ',', from);
    var next := Find(s, ',', from);
    if next.Some? {
      Slices(s, from, next.value);
    }
  }
}

module Conversion {
  import opened Prelude
  import opened Text

  function Print(tags: seq<string>): string {
    "{" + Join(tags) + "}"
  }

  function WithoutEmptyEnd(ts: seq<string>): seq<string>
    requires ts != []
  {
    if ts[|ts| - 1] == "" then ts[..|ts| - 1] else ts
  }

  function Parse(s: string): seq<string> {
    if |s| < 2 then [] else WithoutEmptyEnd(Pieces(s[1..|s| - 1]))
  }

  lemma PrintedPieces(tags: seq<string>)
    ensures var s := Print(tags);
            && |s| >= 2 && s[0] == '{' && s[|s| - 1] == '}'
            && (tags != [] && CommaFree(tags) ==> Pieces(s[1..|s| - 1]) == tags)
  {
    assert Print(tags)[1..|Print(tags)| - 1] == Join(tags);
    if tags != [] && CommaFree(tags) {
      JoinPieces(tags);
    }
  }

  lemma OneTagMore(tags: seq<string>, i: nat)
    requires i < |tags|
    ensures "{" + Join(tags[..i + 1]) == "{" + Join(tags[..i]) + (if i > 0 then "," else "") + tags[i]
  {
    JoinSnoc(tags[..i], tags[i]);
    assert tags[..i] + [tags[i]] == tags[..i + 1];
    hide Join;
    if i > 0 {
      Assoc("{", Join(tags[..i]) + ",", tags[i]);
      Assoc("{", Join(tags[..i]), ",");
    } else {
      assert tags[..0] == [];
      NothingJoined();
    }
  }

  lemma NothingJoined()
    ensures Join([]) == "" && "{" + Join([]) == "{"
  {
  }

  method ArrayToPgsql(tags: seq<string>) returns (result: string)
    ensures result == Print(tags)
    ensures |result| >= 2 && result[0] == '{' && result[|result| - 1] == '}'
    ensures tags != [] && CommaFree(tags) ==> Pieces(result[1..|result| - 1]) == tags
  {
    if tags == [] {
      return "{}";
    }
    PrintedPieces(tags);
    NothingJoined();
    assert tags[..0] == [];
    hide Join, Pieces;
    result := "{";
    for i := 0 to |tags|
      invariant result == "{" + Join(tags[..i])
    {
      OneTagMore(tags, i);
      if i > 0 {
        result := result + ",";
      }
      result := result + tags[i];
    }
    assert tags[..|tags|] == tags;
    result := result + "}";
  }

  /** Taking one piece off leaves the pieces found so far and still to be found as they are. */
  lemma OnePiece(found: seq<string>, content: string, start: nat, end: nat)
    requires start <= |content| && Find(content, ',', start) == Some(end)
    ensures found + Pieces(content[start..]) == found + [content[start..end]] + Pieces(content[end + 1..])
  {
    hide Find, Pieces;
    PiecesFrom(content, start);
    Assoc(found, [content[start..end]], Pieces(content[end + 1..]));
  }

  lemma LastPiece(found: seq<string>, content: string, start: nat)
    requires start <= |content| && Find(content, ',', start) == None
    ensures found + Pieces(content[start..]) == found + [content[start..]]
  {
    hide Find, Pieces;
    PiecesFrom(content, start);
  }

  method PgsqlToVector(s: string) returns (result: seq<string>)
    ensures result == Parse(s)
  {
    hide Find, Pieces;
    result := [];
    if |s| < 2 {
      return;
    }
    var content := s[1..|s| - 1];
    var start := 0;
    var end := Find(content, ',', 0);
    assert content[0..] == content;
    while end.Some?
      invariant start <= |content|
      invariant end == Find(content, ',', start)
      invariant result + Pieces(content[start..]) == Pieces(content)
      decreases |content| - start
    {
      OnePiece(result, content, start, end.value);
      result := result + [content[start..end.value]];
      start := end.value + 1;
      end := Find(content, ',', start);
    }
    LastPiece(result, content, start);
    if content[start..] != "" {
      result := result + [content[start..]];
    }
  }

  /**
   * Parsing the printed list gives it back exactly when no tag holds a comma and the last tag, if any, is non-empty.
   */
  lemma RoundTripExactly(tags: seq<string>)
    ensures Parse(Print(tags)) == tags
       <==> CommaFree(tags) && (tags == [] || tags[|tags| - 1] != "")
  {
    assert Print(tags)[1..|Print(tags)| - 1] == Join(tags);
    PiecesJoin(Join(tags));
    if CommaFree(tags) && tags != [] {
      JoinPieces(tags);
    }
  }

  /** What the parser returns of a printed comma-free list: only an empty last tag is lost. */
  lemma OnlyAnEmptyEndIsLost(tags: seq<string>)
    requires CommaFree(tags) && tags != []
    ensures Parse(Print(tags)) == WithoutEmptyEnd(tags)
  {
    assert Print(tags)[1..|Print(tags)| - 1] == Join(tags);
    JoinPieces(tags);
  }
}
