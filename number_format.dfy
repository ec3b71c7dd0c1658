/**
 * FormatIntWithCommas of both Go clients: the decimal text of an integer with
 * a comma between every group of three digits, counted from the right.
 */
module NumberFormat {
  import opened Common

  /** The digits of a number, grouped by commas from the right. */
  function Grouped(d: string): (r: string)
    ensures |d| <= |r|
  {
    if |d| <= 3 then d else Grouped(d[..|d| - 3]) + "," + d[|d| - 3..]
  }

  /** The sign of the decimal text: "-" for negative numbers. */
  function Sign(n: int): string
  {
    if n < 0 then "-" else ""
  }

  /** The digits of the decimal text, without the sign. */
  function Magnitude(n: int): string
  {
    NatToString(if n < 0 then -n else n)
  }

  /** The reference result: the sign, then the magnitude's digits grouped from the right. */
  function Formatted(n: int): string
  {
    Sign(n) + Grouped(Magnitude(n))
  }

  lemma IntToStringParts(n: int)
    ensures IntToString(n) == Sign(n) + Magnitude(n)
  {
  }

  /** The text with its commas removed. */
  function RemoveCommas(s: string): string
  {
    if s == [] then []
    else RemoveCommas(s[..|s| - 1]) + (if s[|s| - 1] == ',' then [] else [s[|s| - 1]])
  }

  lemma {:induction false} RemoveCommasAppend(a: string, b: string)
    ensures RemoveCommas(a + b) == RemoveCommas(a) + RemoveCommas(b)
  {
    if b != [] {
      var n := |b| - 1;
      assert (a + b)[..|a + b| - 1] == a + b[..n];
      RemoveCommasAppend(a, b[..n]);
    } else {
      assert a + b == a;
    }
  }

  lemma {:induction false} RemoveCommasNone(s: string)
    requires forall i :: 0 <= i < |s| ==> s[i] != ','
    ensures RemoveCommas(s) == s
  {
    if s != [] {
      RemoveCommasNone(s[..|s| - 1]);
    }
  }

  /** A comma between two texts disappears when commas are removed. */
  lemma RemoveCommasAround(g: string, last: string)
    ensures RemoveCommas(g + "," + last) == RemoveCommas(g) + RemoveCommas(last)
  {
    RemoveCommasAppend(g + ",", last);
    RemoveCommasAppend(g, ",");
    assert RemoveCommas(",") == [] by {
      assert ","[..0] == [];
    }
  }

  /** Removing the commas from the grouped digits gives the digits back. */
  lemma {:induction false} GroupedRemoveCommas(d: string)
    requires forall i :: 0 <= i < |d| ==> d[i] != ','
    ensures RemoveCommas(Grouped(d)) == d
  {
    if |d| <= 3 {
      RemoveCommasNone(d);
    } else {
      var init, last := d[..|d| - 3], d[|d| - 3..];
      assert Grouped(d) == Grouped(init) + "," + last;
      GroupedRemoveCommas(init);
      RemoveCommasAround(Grouped(init), last);
      RemoveCommasNone(last);
      assert init + last == d;
    }
  }

  /**
   * Commas sit exactly at every fourth position counted from the right, and
   * the length is not a multiple of four: the first group has one to three
   * digits and every later group exactly three.
   */
  predicate CommaEveryFourth(t: string)
  {
    |t| % 4 != 0 && forall j :: 0 <= j < |t| ==> (t[j] == ',' <==> (|t| - j) % 4 == 0)
  }

  /** One more group of three digits after a comma keeps the shape. */
  lemma CommaEveryFourthSnoc(g: string, last: string)
    requires CommaEveryFourth(g) && |last| == 3 && forall i :: 0 <= i < |last| ==> last[i] != ','
    ensures CommaEveryFourth(g + "," + last)
  {
    var t := g + "," + last;
    assert |t| == |g| + 4;
    forall j | 0 <= j < |t| ensures t[j] == ',' <==> (|t| - j) % 4 == 0 {
      if j < |g| {
        assert t[j] == g[j];
        assert |t| - j == (|g| - j) + 4;
      } else if j == |g| {
        assert t[j] == ',' && |t| - j == 4;
      } else {
        assert t[j] == last[j - |g| - 1];
        assert 1 <= |t| - j <= 3;
      }
    }
  }

  lemma {:induction false} GroupedShape(d: string)
    requires |d| >= 1 && forall i :: 0 <= i < |d| ==> d[i] != ','
    ensures CommaEveryFourth(Grouped(d))
  {
    if |d| > 3 {
      var init, last := d[..|d| - 3], d[|d| - 3..];
      GroupedShape(init);
      assert Grouped(d) == Grouped(init) + "," + last;
      CommaEveryFourthSnoc(Grouped(init), last);
    } else {
      var t := Grouped(d);
      assert t == d;
      forall j | 0 <= j < |t| ensures t[j] == ',' <==> (|t| - j) % 4 == 0 {
        assert 1 <= |t| - j <= 3;
      }
    }
  }

  /** The reference result keeps the digits, groups them by three and leaves short numbers alone. */
  lemma FormattedSpec(n: int)
    ensures RemoveCommas(Formatted(n)) == IntToString(n)
    ensures CommaEveryFourth(Grouped(Magnitude(n)))
    ensures |IntToString(n)| <= 3 ==> Formatted(n) == IntToString(n)
  {
    var m, sign := Magnitude(n), Sign(n);
    assert forall i :: 0 <= i < |m| ==> m[i] != ',';
    assert forall i :: 0 <= i < |sign| ==> sign[i] != ',';
    GroupedRemoveCommas(m);
    GroupedShape(m);
    RemoveCommasAppend(sign, Grouped(m));
    RemoveCommasNone(sign);
    assert RemoveCommas(Formatted(n)) == sign + m;
    IntToStringParts(n);
  }

  lemma GroupedExamples()
    ensures Grouped("1234567") == "1,234,567"
    ensures Grouped("123456") == "123,456"
    ensures Grouped("999") == "999"
  {
    assert Grouped("1234") == Grouped("1") + "," + "234";
    assert Grouped("1234567") == Grouped("1234") + "," + "567";
    assert Grouped("123456") == Grouped("123") + "," + "456";
  }

  /** Grouping one more block of three digits: a comma before it unless nothing came first. */
  lemma GroupedStep(s: string, i: nat)
    requires i + 3 <= |s|
    ensures |Grouped(s[..i])| > 0 <==> i > 0
    ensures Grouped(s[..i + 3]) == if i == 0 then s[i..i + 3] else Grouped(s[..i]) + "," + s[i..i + 3]
  {
    var next := s[..i + 3];
    assert next[..|next| - 3] == s[..i] && next[|next| - 3..] == s[i..i + 3];
  }

  /** FormatIntWithCommas: the leading short group first, then one comma and three digits at a time. */
  method FormatIntWithCommas(n: int) returns (r: string)
    ensures r == Formatted(n)
  {
    var s := IntToString(n);
    IntToStringParts(n);
    if |s| <= 3 {
      FormattedSpec(n);
      return s;
    }
    var neg := false;
    if n < 0 {
      neg := true;
      s := s[1..];
    }
    assert s == Magnitude(n);
    var out := "";
    var pre := |s| % 3;
    if pre > 0 {
      out := out + s[..pre];
    }
    var i := pre;
    while i < |s|
      invariant pre <= i <= |s| && (|s| - i) % 3 == 0
      invariant out == Grouped(s[..i])
    {
      GroupedStep(s, i);
      if |out| > 0 {
        out := out + ",";
      }
      out := out + s[i..i + 3];
      i := i + 3;
    }
    assert s[..i] == s;
    if neg {
      return "-" + out;
    }
    return out;
  }
}
