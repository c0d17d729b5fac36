// The tag filter of filter_posts (controllers/community.cc): the query
// parameter cut into tags, and the SQL condition spelled from them.
module TagFilter {
  import opened Prelude
  import opened Text

  // ---- cutting the parameter -------------------------------------------------

  function NonEmpty(ts: seq<string>): seq<string> {
    if ts == [] then []
    else if ts[0] == "" then NonEmpty(ts[1..])
    else [ts[0]] + NonEmpty(ts[1..])
  }

  lemma NonEmptyCons(t: string, ts: seq<string>)
    ensures NonEmpty([t] + ts) == (if t == "" then [] else [t]) + NonEmpty(ts)
  {
  }

  /** Taking one piece off the text leaves the tags found so far and still to be found as they are. */
  lemma OneTag(tags: seq<string>, text: string, pos: nat)
    requires Find(text, ',', 0) == Some(pos)
    ensures tags + NonEmpty(Pieces(text))
         == (if pos == 0 then tags else tags + [text[..pos]]) + NonEmpty(Pieces(text[pos + 1..]))
  {
    hide NonEmpty, Find;
    var token, rest := text[..pos], Pieces(text[pos + 1..]);
    NonEmptyCons(token, rest);
    Assoc(tags, [token], NonEmpty(rest));
  }

  lemma LastTag(tags: seq<string>, text: string)
    requires Find(text, ',', 0) == None
    ensures tags + NonEmpty(Pieces(text)) == if text == "" then tags else tags + [text]
  {
    hide Find;
  }

  method SplitTags(tagsParam: string) returns (tags: seq<string>)
    ensures tags == NonEmpty(Pieces(tagsParam))
  {
    hide Find, NonEmpty;
    tags := [];
    var tagsStr := tagsParam;
    var pos := Find(tagsStr, ',', 0);
    while pos.Some?
      invariant pos == Find(tagsStr, ',', 0)
      invariant tags + NonEmpty(Pieces(tagsStr)) == NonEmpty(Pieces(tagsParam))
      decreases |tagsStr|
    {
      var token := tagsStr[..pos.value];
      OneTag(tags, tagsStr, pos.value);
      if token != "" {
        tags := tags + [token];
      }
      tagsStr := tagsStr[pos.value + 1..];
      pos := Find(tagsStr, ',', 0);
    }
    LastTag(tags, tagsStr);
    if tagsStr != "" {
      tags := tags + [tagsStr];
    }
  }

  lemma {:induction false} AllKept(ts: seq<string>)
    requires "" !in ts
    ensures NonEmpty(ts) == ts
    decreases |ts|
  {
    if ts != [] {
      AllKept(ts[1..]);
      assert ts == [ts[0]] + ts[1..];
    }
  }

  lemma {:induction false} OnlyKept(ts: seq<string>)
    ensures forall t :: t in NonEmpty(ts) <==> t in ts && t != ""
    decreases |ts|
  {
    if ts != [] {
      OnlyKept(ts[1..]);
      assert ts == [ts[0]] + ts[1..];
    }
  }

  /** A joined list of tags comes back from the split exactly when no tag is empty or holds a comma. */
  lemma SplitJoinedExactly(ts: seq<string>)
    ensures NonEmpty(Pieces(Join(ts))) == ts <==> CommaFree(ts) && "" !in ts
  {
    PiecesJoin(Join(ts));
    OnlyKept(Pieces(Join(ts)));
    if CommaFree(ts) && "" !in ts {
      if ts == [] {
        FoundNone("", ',', 0);
        NonEmptyCons("", []);
      } else {
        JoinPieces(ts);
        AllKept(ts);
      }
    }
  }

  // ---- quoting ------------------------------------------------------------------

  const QUOTE := '\''

  function Doubled(tag: string): string {
    if tag == "" then ""
    else (if tag[0] == QUOTE then [QUOTE, QUOTE] else [tag[0]]) + Doubled(tag[1..])
  }

  lemma {:induction false} DoubledPlain(tag: string)
    requires QUOTE !in tag
    ensures Doubled(tag) == tag
    decreases |tag|
  {
    if tag != "" {
      DoubledPlain(tag[1..]);
      assert tag == [tag[0]] + tag[1..];
    }
  }

  /** Up to the first quote nothing changes, and that quote is doubled. */
  lemma {:induction false} DoubledUpTo(tag: string, k: nat)
    requires k < |tag| && tag[k] == QUOTE && QUOTE !in tag[..k]
    ensures Doubled(tag) == tag[..k] + [QUOTE, QUOTE] + Doubled(tag[k + 1..])
    decreases |tag|
  {
    if k > 0 {
      assert tag[0] == tag[..k][0];
      assert tag[1..][..k - 1] == tag[..k][1..];
      DoubledUpTo(tag[1..], k - 1);
      assert tag[1..][k..] == tag[k + 1..];
    }
  }

  method EscapeQuotes(tag: string) returns (escaped: string)
    ensures escaped == Doubled(tag)
  {
    hide Find, Doubled;
    escaped := tag;
    var pos: nat := 0;
    var next := Find(escaped, QUOTE, pos);
    while next.Some?
      invariant pos <= |escaped| && next == Find(escaped, QUOTE, pos)
      invariant Doubled(tag) == escaped[..pos] + Doubled(escaped[pos..])
      decreases |escaped| - pos
    {
      EscapeStep(escaped, pos, next.value);
      escaped := escaped[..next.value] + [QUOTE, QUOTE] + escaped[next.value + 1..];
      pos := next.value + 2;
      next := Find(escaped, QUOTE, pos);
    }
    EscapeDone(escaped, pos);
  }

  lemma EscapeStep(s: string, pos: nat, k: nat)
    requires Find(s, QUOTE, pos) == Some(k)
    ensures var t := s[..k] + [QUOTE, QUOTE] + s[k + 1..];
            s[..pos] + Doubled(s[pos..]) == t[..k + 2] + Doubled(t[k + 2..])
  {
    hide Find, Doubled;
    Found(s, QUOTE, pos);
    NoneBefore(s, pos, k);
    DoubledUpTo(s[pos..], k - pos);
    Slices(s, pos, k);
    var t := s[..k] + [QUOTE, QUOTE] + s[k + 1..];
    assert t[..k + 2] == s[..k] + [QUOTE, QUOTE] && t[k + 2..] == s[k + 1..];
    Assoc(s[..pos], s[pos..k] + [QUOTE, QUOTE], Doubled(s[k + 1..]));
    Assoc(s[..pos], s[pos..k], [QUOTE, QUOTE]);
    assert s[..pos] + s[pos..k] == s[..k];
  }

  lemma NoneBefore(s: string, pos: nat, k: nat)
    requires pos <= k < |s| && forall j :: pos <= j < k ==> s[j] != QUOTE
    ensures QUOTE !in s[pos..][..k - pos]
  {
  }

  lemma EscapeDone(s: string, pos: nat)
    requires pos <= |s| && Find(s, QUOTE, pos).None?
    ensures s[..pos] + Doubled(s[pos..]) == s
  {
    Found(s, QUOTE, pos);
    DoubledPlain(s[pos..]);
  }

  // ---- how SQL reads it back ------------------------------------------------------

  datatype Reading<T> = Unreadable | Reading(value: T, rest: string)

  /** The body of an SQL string literal and its closing quote: two quotes stand for one. */
  function ReadBody(s: string): (r: Reading<string>)
    ensures r.Reading? ==> |r.rest| < |s|
  {
    if s == "" then Unreadable
    else if s[0] != QUOTE then
      match ReadBody(s[1..])
      case Unreadable => Unreadable
      case Reading(text, rest) => Reading([s[0]] + text, rest)
    else if |s| == 1 || s[1] != QUOTE then Reading("", s[1..])
    else
      match ReadBody(s[2..])
      case Unreadable => Unreadable
      case Reading(text, rest) => Reading([QUOTE] + text, rest)
  }

  /** The escaped tag, closed by a quote, reads back as the tag, and reading stops at that quote. */
  lemma {:induction false} QuotedReadsBack(tag: string, more: string)
    requires more == "" || more[0] != QUOTE
    ensures ReadBody(Doubled(tag) + [QUOTE] + more) == Reading(tag, more)
    decreases |tag|
  {
    var s := Doubled(tag) + [QUOTE] + more;
    if tag == "" {
      assert s[1..] == more;
    } else {
      QuotedReadsBack(tag[1..], more);
      var after := Doubled(tag[1..]) + [QUOTE] + more;
      if tag[0] == QUOTE {
        assert s[2..] == after;
      } else {
        assert s[1..] == after;
      }
      assert tag == [tag[0]] + tag[1..];
    }
  }

  /** What a condition on p.tags says. */
  datatype Expr = Has(tag: string) | Either(left: Expr, right: Expr)

  /** Whether it is true of a post with these tags. */
  predicate Eval(e: Expr, postTags: set<string>) {
    match e
    case Has(tag) => tag in postTags
    case Either(left, right) => Eval(left, postTags) || Eval(right, postTags)
  }

  /** Tests of a tag literal against p.tags, with OR between them, closed by a parenthesis and a blank. */
  function ReadTests(s: string): Reading<Expr>
    decreases |s|
  {
    if s == "" || s[0] != QUOTE then Unreadable
    else
      match ReadBody(s[1..])
      case Unreadable => Unreadable
      case Reading(tag, test) =>
        if !(" = ANY(p.tags)" <= test) then Unreadable
        else ReadOn(tag, test[14..])
  }

  function ReadOn(tag: string, s: string): Reading<Expr>
    decreases |s|
  {
    if ") " <= s then Reading(Has(tag), s[2..])
    else if " OR " <= s then
      match ReadTests(s[4..])
      case Unreadable => Unreadable
      case Reading(more, rest) => Reading(Either(Has(tag), more), rest)
    else Unreadable
  }

  function ReadCondition(s: string): Reading<Expr> {
    if "AND (" <= s then ReadTests(s[5..]) else Unreadable
  }

  // ---- spelling the condition -----------------------------------------------------

  const TEST := " = ANY(p.tags)"
  const OR := " OR "
  const OPEN := "AND ("

  function Test(tag: string): string {
    [QUOTE] + Doubled(tag) + [QUOTE] + TEST
  }

  function Union(tags: seq<string>): string {
    if |tags| == 0 then ""
    else if |tags| == 1 then Test(tags[0])
    else Test(tags[0]) + OR + Union(tags[1..])
  }

  /** The text added to the query for a list of tags. */
  function Condition(tags: seq<string>): string {
    if tags == [] then "" else OPEN + Union(tags) + ") "
  }

  lemma {:induction false} UnionSnoc(tags: seq<string>, tag: string)
    ensures Union(tags + [tag]) == if tags == [] then Test(tag) else Union(tags) + OR + Test(tag)
    decreases |tags|
  {
    hide Test;
    if |tags| == 1 {
      assert (tags + [tag])[1..] == [tag];
    } else if |tags| > 1 {
      assert (tags + [tag])[1..] == tags[1..] + [tag];
      UnionSnoc(tags[1..], tag);
    }
  }

  lemma UnionGrows(tags: seq<string>, i: nat)
    requires i < |tags|
    ensures OPEN + Union(tags[..i + 1])
         == OPEN + Union(tags[..i]) + (if i > 0 then OR else "") + Test(tags[i])
  {
    hide Test;
    UnionSnoc(tags[..i], tags[i]);
    assert tags[..i] + [tags[i]] == tags[..i + 1];
  }

  method TagCondition(tagsParam: Option<string>) returns (query: string)
    ensures query == Condition(if tagsParam.Some? then NonEmpty(Pieces(tagsParam.value)) else [])
  {
    hide Find, Pieces, NonEmpty, Doubled;
    query := "";
    var tags := [];
    if tagsParam.Some? {
      tags := SplitTags(tagsParam.value);
    }
    if tags != [] {
      query := query + OPEN;
      for i := 0 to |tags|
        invariant query == OPEN + Union(tags[..i])
      {
        UnionGrows(tags, i);
        if i > 0 {
          query := query + OR;
        }
        var escapedTag := EscapeQuotes(tags[i]);
        query := query + ("'" + escapedTag + "'" + TEST);
      }
      assert tags[..|tags|] == tags;
      query := query + ") ";
    }
  }

  lemma Prefixed(prefix: string, more: string)
    ensures prefix <= prefix + more && (prefix + more)[|prefix|..] == more
  {
  }

  lemma Opened(d: string, test: string, more: string)
    ensures var s := [QUOTE] + d + [QUOTE] + test + more;
            s[0] == QUOTE && s[1..] == d + [QUOTE] + (test + more)
  {
  }

  lemma TestReadsBack(tag: string, more: string)
    ensures ReadTests(Test(tag) + more) == ReadOn(tag, more)
  {
    hide Doubled, ReadBody, ReadOn;
    QuotedReadsBack(tag, TEST + more);
    Prefixed(TEST, more);
    Opened(Doubled(tag), TEST, more);
  }

  lemma ReadOnEnds(tag: string, more: string)
    ensures ReadOn(tag, ") " + more) == Reading(Has(tag), more)
  {
  }

  lemma ReadOnGoesOn(tag: string, rest: string)
    ensures ReadOn(tag, OR + rest) ==
      match ReadTests(rest)
      case Unreadable => Unreadable
      case Reading(e, more) => Reading(Either(Has(tag), e), more)
  {
    Prefixed(OR, rest);
    assert (OR + rest)[0] == ' ';
  }

  /** The tests for some tags, read from the left. */
  function AnyOf(tags: seq<string>): Expr
    requires tags != []
  {
    if |tags| == 1 then Has(tags[0]) else Either(Has(tags[0]), AnyOf(tags[1..]))
  }

  lemma {:induction false} AnyOfMeans(tags: seq<string>, postTags: set<string>)
    requires tags != []
    ensures Eval(AnyOf(tags), postTags) <==> exists t :: t in tags && t in postTags
    decreases |tags|
  {
    if |tags| > 1 {
      AnyOfMeans(tags[1..], postTags);
      assert tags == [tags[0]] + tags[1..];
    }
  }

  lemma {:induction false} UnionReadsBack(tags: seq<string>, more: string)
    requires tags != []
    ensures ReadTests(Union(tags) + ") " + more) == Reading(AnyOf(tags), more)
    decreases |tags|
  {
    hide Test, ReadTests, ReadOn;
    if |tags| == 1 {
      var end := ") " + more;
      TestReadsBack(tags[0], end);
      ReadOnEnds(tags[0], more);
      assert tags == [tags[0]];
      assert Union(tags) + ") " + more == Test(tags[0]) + end;
    } else {
      UnionReadsBack(tags[1..], more);
      var rest := Union(tags[1..]) + ") " + more;
      TestReadsBack(tags[0], OR + rest);
      ReadOnGoesOn(tags[0], rest);
      assert Union(tags) + ") " + more == Test(tags[0]) + (OR + rest);
    }
  }

  /**
   * Read as SQL, the condition ends where it should and is true of exactly the
   * posts that have one of the tags it was spelled from.
   */
  lemma ConditionReadsBack(tags: seq<string>, more: string, postTags: set<string>)
    requires tags != []
    ensures var read := ReadCondition(Condition(tags) + more);
            && read.Reading? && read.rest == more
            && (Eval(read.value, postTags) <==> exists t :: t in tags && t in postTags)
  {
    hide ReadTests, Union, AnyOf, Eval;
    UnionReadsBack(tags, more);
    AnyOfMeans(tags, postTags);
    var tests := Union(tags) + ") " + more;
    Prefixed(OPEN, tests);
    assert Condition(tags) + more == OPEN + tests;
  }
}
