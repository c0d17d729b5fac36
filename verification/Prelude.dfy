// Shared vocabulary: optional values, set-to-row enumeration, and the text
// form of ids and topics (utilities/conversion.hpp, connection_manager.hpp).

module Prelude {

  datatype Option<+T> = None | Some(value: T)

  /** The elements of a row list as a set. */
  function Elements<T>(rows: seq<T>): (s: set<T>) {
    set x | x in rows
  }

  ghost predicate Distinct<T>(rows: seq<T>) {
    forall i, j :: 0 <= i < j < |rows| ==> rows[i] != rows[j]
  }

  lemma Member<T(!new)>(s: set<T>) returns (x: T)
    requires s != {}
    ensures x in s
  {
    if forall y :: y !in s {
      assert false;
    }
    x :| x in s;
  }

  /** The rows of a statement's result: every match once, in no particular order. */
  method Rows<T(==, !new)>(matches: set<T>) returns (rows: seq<T>)
    ensures Distinct(rows) && Elements(rows) == matches
  {
    rows := [];
    var left := matches;
    while left != {}
      invariant left <= matches
      invariant Distinct(rows) && Elements(rows) + left == matches && Elements(rows) !! left
      decreases left
    {
      ghost var some := Member(left);
      var row :| row in left;
      assert Elements(rows + [row]) == Elements(rows) + {row};
      rows := rows + [row];
      left := left - {row};
    }
  }

  lemma RowsMatch<T(!new)>(rows: seq<T>, matches: set<T>)
    requires Elements(rows) == matches
    ensures forall i :: 0 <= i < |rows| ==> rows[i] in matches
    ensures forall x :: x in matches ==> x in rows
  {
  }

  lemma Assoc<T>(a: seq<T>, b: seq<T>, c: seq<T>)
    ensures a + (b + c) == a + b + c
  {
  }

  /** A list without repetition is as long as the set of its elements. */
  lemma {:induction false} DistinctCount<T>(rows: seq<T>)
    requires Distinct(rows)
    ensures |Elements(rows)| == |rows|
  {
    if rows == [] {
    } else {
      var init, last := rows[..|rows| - 1], rows[|rows| - 1];
      DistinctCount(init);
      assert Elements(rows) == Elements(init) + {last};
    }
  }
}

// std::to_string and convert::string_to_int on ids, and create_topic.
module Ids {
  import opened Prelude

  const DIGITS := "0123456789"

  predicate IsDigit(c: char) { '0' <= c <= '9' }

  function IntToString(n: nat): (s: string)
    ensures s != "" && forall c :: c in s ==> IsDigit(c)
  {
    if n < 10 then [DIGITS[n]] else IntToString(n / 10) + [DIGITS[n % 10]]
  }

  /** The value of a run of digits; None when the text is empty or holds anything else. */
  function Digits(s: string): (v: Option<int>)
    ensures v.Some? ==> v.value >= 0
  {
    if s == "" then None
    else
      var last := s[|s| - 1];
      if !IsDigit(last) then None
      else
        var d := (last - '0') as int;
        if |s| == 1 then Some(d)
        else match Digits(s[..|s| - 1])
             case None => None
             case Some(v) => Some(10 * v + d)
  }

  /** Digits with an optional minus sign, consuming the whole text. */
  function StringToInt(s: string): Option<int> {
    if s != "" && s[0] == '-' then
      match Digits(s[1..])
      case None => None
      case Some(v) => Some(-v)
    else
      match Digits(s)
      case None => None
      case Some(v) => Some(v)
  }

  lemma {:induction false} DigitsRoundTrip(n: nat)
    ensures Digits(IntToString(n)) == Some(n)
    decreases n
  {
    if n >= 10 {
      DigitsRoundTrip(n / 10);
      var s := IntToString(n);
      assert s[..|s| - 1] == IntToString(n / 10);
    }
  }

  /** Parsing undoes printing. */
  lemma RoundTrip(n: nat)
    ensures StringToInt(IntToString(n)) == Some(n)
  {
    DigitsRoundTrip(n);
    var s := IntToString(n);
    assert IsDigit(s[0]);
  }

  /** Without a minus sign or a leading zero. */
  predicate Plain(s: string) { s != "" && s[0] != '-' && (s[0] == '0' ==> |s| == 1) }

  lemma {:induction false} DigitsPrinted(s: string, n: nat)
    requires Plain(s) && Digits(s) == Some(n)
    ensures s == IntToString(n) && (n == 0 ==> s == "0")
    decreases |s|
  {
    if |s| > 1 {
      var init := s[..|s| - 1];
      var v := Digits(init).value;
      assert init[0] == s[0];
      DigitsPrinted(init, v);
      assert s == init + [s[|s| - 1]];
      assert n / 10 == v && n % 10 == (s[|s| - 1] - '0') as int;
    }
  }

  /** Several texts name one id; exactly one of them is the printed form. */
  lemma PrintedExactly(s: string, n: nat)
    requires StringToInt(s) == Some(n)
    ensures s == IntToString(n) <==> Plain(s)
  {
    if Plain(s) {
      DigitsPrinted(s, n);
    } else if s == IntToString(n) {
      PrintedIsPlain(n);
    }
  }

  lemma {:induction false} PrintedIsPlain(n: nat)
    ensures Plain(IntToString(n)) && (n > 0 ==> IntToString(n)[0] != '0')
    decreases n
  {
    if n >= 10 {
      PrintedIsPlain(n / 10);
      assert IntToString(n)[0] == IntToString(n / 10)[0];
    }
  }

  /** The topic under which an entity's notices are published. */
  function CreateTopic(kind: string, id: string): string { kind + ":" + id }

  /** Topics of colon-free kinds never collide. */
  lemma TopicInjective(k1: string, i1: string, k2: string, i2: string)
    requires ':' !in k1 && ':' !in k2
    ensures CreateTopic(k1, i1) == CreateTopic(k2, i2) <==> k1 == k2 && i1 == i2
  {
    var t1, t2 := CreateTopic(k1, i1), CreateTopic(k2, i2);
    if t1 == t2 {
      assert t1[|k1|] == ':' && t2[|k2|] == ':';
      assert forall j :: 0 <= j < |k1| ==> t1[j] == k1[j];
      assert forall j :: 0 <= j < |k2| ==> t2[j] == k2[j];
      assert |k1| == |k2|;
      assert k1 == t1[..|k1|] && k2 == t2[..|k2|];
      assert i1 == t1[|k1| + 1..] && i2 == t2[|k2| + 1..];
    }
  }
}
