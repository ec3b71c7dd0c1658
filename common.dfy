/**
 * Shared vocabulary of the model: optional values, error-carrying results and the
 * handful of Go / Python string primitives (TrimSpace, strip, Split, Fields,
 * HasPrefix, ...) that the rest of the modules are written in.
 *
 * Whitespace is the ASCII set that Go's unicode.IsSpace, Python's str.strip and
 * the regular-expression class \s agree on: space, tab, newline, carriage return,
 * vertical tab and form feed.
 */
module Common {

  datatype Option<T> = None | Some(value: T)

  datatype Result<T> = Success(value: T) | Failure(error: string)

  /** The two Go command-line clients: the current mct client and the older machtiani one. */
  datatype Variant = Current | Older

  predicate IsSpace(c: char)
  {
    c == ' ' || c == '\t' || c == '\n' || c == '\r' || c == '\U{0B}' || c == '\U{0C}'
  }

  predicate IsBlank(s: string)
  {
    forall i :: 0 <= i < |s| ==> IsSpace(s[i])
  }

  /** The end of the whitespace run that starts at i. */
  function SpaceRunEnd(s: string, i: nat): (r: nat)
    requires i <= |s|
    ensures i <= r <= |s| && (r == |s| || !IsSpace(s[r]))
    ensures forall j :: i <= j < r ==> IsSpace(s[j])
    decreases |s| - i
  {
    if i < |s| && IsSpace(s[i]) then SpaceRunEnd(s, i + 1) else i
  }

  /** The start of the whitespace run that ends at e. */
  function SpaceRunStart(s: string, e: nat): (r: nat)
    requires e <= |s|
    ensures r <= e && (r == 0 || !IsSpace(s[r - 1]))
    ensures forall j :: r <= j < e ==> IsSpace(s[j])
  {
    if e > 0 && IsSpace(s[e - 1]) then SpaceRunStart(s, e - 1) else e
  }

  /** Leading whitespace removed (Python lstrip(), Go TrimLeft with the space set). */
  function TrimLeft(s: string): (r: string)
    ensures |r| <= |s| && r == s[|s| - |r|..]
    ensures r != [] ==> !IsSpace(r[0])
    ensures IsBlank(s[..|s| - |r|])
  {
    var i := SpaceRunEnd(s, 0);
    assert forall j :: 0 <= j < i ==> s[..i][j] == s[j];
    s[i..]
  }

  /** Trailing whitespace removed. */
  function TrimRight(s: string): (r: string)
    ensures |r| <= |s| && r == s[..|r|]
    ensures r != [] ==> !IsSpace(r[|r| - 1])
    ensures IsBlank(s[|r|..])
  {
    var e := SpaceRunStart(s, |s|);
    assert forall j :: 0 <= j < |s| - e ==> s[e..][j] == s[e + j];
    s[..e]
  }

  /** No whitespace at either end. */
  predicate IsTrimmed(s: string)
  {
    s == [] || (!IsSpace(s[0]) && !IsSpace(s[|s| - 1]))
  }

  /** Go strings.TrimSpace and Python str.strip(). */
  function TrimSpace(s: string): (r: string)
  {
    TrimRight(TrimLeft(s))
  }

  /** A string without whitespace is its own trimming. */
  lemma TrimSpaceNoSpace(s: string)
    requires forall i :: 0 <= i < |s| ==> !IsSpace(s[i])
    ensures TrimSpace(s) == s
  {
    if s != [] {
      assert !IsSpace(s[0]);
      assert TrimLeft(s) == s;
      assert !IsSpace(s[|s| - 1]);
    }
  }

  lemma TrimSpaceTrimmed(s: string)
    ensures IsTrimmed(TrimSpace(s))
  {
    var l := TrimLeft(s);
    var r := TrimRight(l);
    if r != [] {
      assert r[0] == l[0];
    }
  }

  lemma TrimSpaceEmptyIffBlank(s: string)
    ensures TrimSpace(s) == [] <==> IsBlank(s)
  {
    var l := TrimLeft(s);
    if TrimSpace(s) == [] {
      assert IsBlank(l[0..]);
      assert s == s[..|s| - |l|] + l;
    } else {
      var r := TrimSpace(s);
      assert r[0] == l[0] && !IsSpace(l[0]);
      assert s[|s| - |l|] == l[0];
    }
  }

  predicate HasPrefix(s: string, p: string)
  {
    |p| <= |s| && s[..|p|] == p
  }

  predicate HasSuffix(s: string, p: string)
  {
    |p| <= |s| && s[|s| - |p|..] == p
  }

  function TrimPrefix(s: string, p: string): (r: string)
  {
    if HasPrefix(s, p) then s[|p|..] else s
  }

  function TrimSuffix(s: string, p: string): (r: string)
  {
    if HasSuffix(s, p) then s[..|s| - |p|] else s
  }

  /** p occurs in s starting at index i. */
  predicate OccursAt(s: string, p: string, i: int)
  {
    0 <= i && i + |p| <= |s| && s[i..i + |p|] == p
  }

  /** Go strings.Contains and Python's `in` on strings. */
  predicate Contains(s: string, p: string)
  {
    exists i | 0 <= i <= |s| - |p| :: OccursAt(s, p, i)
  }

  /** The first index at or after `from` where p occurs, if any. */
  function IndexFrom(s: string, p: string, from: nat): (r: Option<nat>)
    ensures r.Some? ==> from <= r.value && OccursAt(s, p, r.value)
    ensures r.Some? ==> forall j :: from <= j < r.value ==> !OccursAt(s, p, j)
    ensures r.None? ==> forall j :: from <= j ==> !OccursAt(s, p, j)
    decreases |s| - from
  {
    if from + |p| > |s| then None
    else if s[from..from + |p|] == p then Some(from)
    else IndexFrom(s, p, from + 1)
  }

  /** The first index at or after `from` holding the character c, if any. */
  function IndexOfChar(s: string, c: char, from: nat): (r: Option<nat>)
    ensures r.Some? ==> from <= r.value < |s| && s[r.value] == c
    ensures r.Some? ==> forall j :: from <= j < r.value ==> s[j] != c
    ensures r.None? ==> forall j :: from <= j < |s| ==> s[j] != c
    decreases |s| - from
  {
    if from >= |s| then None
    else if s[from] == c then Some(from)
    else IndexOfChar(s, c, from + 1)
  }

  /** Go strings.Split with a one-character separator: always at least one piece. */
  function Split(s: string, sep: char): (r: seq<string>)
    ensures |r| >= 1
    ensures forall k :: 0 <= k < |r| ==> sep !in r[k]
  {
    if s == [] then [""]
    else
      var rest := Split(s[1..], sep);
      if s[0] == sep then [""] + rest else [[s[0]] + rest[0]] + rest[1..]
  }

  /** A split gives one piece, the whole string, exactly when the separator does not occur. */
  lemma {:induction false} SplitWhole(s: string, sep: char)
    ensures |Split(s, sep)| == 1 <==> sep !in s
    ensures sep !in s ==> Split(s, sep) == [s]
  {
    if s != [] {
      SplitWhole(s[1..], sep);
      assert s == [s[0]] + s[1..];
    }
  }

  /** A piece without the separator, then the separator: the piece comes first, then the split of the rest. */
  lemma {:induction false} SplitAfterPiece(a: string, b: string, sep: char)
    requires sep !in a
    ensures Split(a + [sep] + b, sep) == [a] + Split(b, sep)
  {
    var s := a + [sep] + b;
    if a == [] {
      assert s[1..] == b;
    } else {
      var t := a[1..];
      assert s[0] == a[0] && s[1..] == t + [sep] + b;
      assert sep !in t by {
        forall i | 0 <= i < |t| ensures t[i] != sep { assert t[i] == a[i + 1]; }
      }
      SplitAfterPiece(t, b, sep);
      assert [a[0]] + t == a;
    }
  }

  /** Go strings.Join / Python str.join with a one-character separator. */
  function Join(parts: seq<string>, sep: char): (r: string)
  {
    if |parts| == 0 then ""
    else if |parts| == 1 then parts[0]
    else parts[0] + [sep] + Join(parts[1..], sep)
  }

  lemma {:induction false} JoinSplit(s: string, sep: char)
    ensures Join(Split(s, sep), sep) == s
  {
    if s != [] {
      JoinSplit(s[1..], sep);
      var rest := Split(s[1..], sep);
      if s[0] == sep {
        assert Split(s, sep) == [""] + rest;
      } else {
        var r := [[s[0]] + rest[0]] + rest[1..];
        assert Split(s, sep) == r;
        if |rest| == 1 {
          assert Join(r, sep) == [s[0]] + rest[0];
        } else {
          assert r[1..] == rest[1..];
          assert Join(r, sep) == [s[0]] + rest[0] + [sep] + Join(rest[1..], sep);
        }
      }
    }
  }

  /** Joining pieces that hold no separator and splitting again gives the pieces back. */
  lemma {:induction false} SplitJoin(parts: seq<string>, sep: char)
    requires |parts| >= 1 && forall k :: 0 <= k < |parts| ==> sep !in parts[k]
    ensures Split(Join(parts, sep), sep) == parts
  {
    if |parts| == 1 {
      SplitWhole(parts[0], sep);
    } else {
      SplitJoin(parts[1..], sep);
      SplitAfterPiece(parts[0], Join(parts[1..], sep), sep);
      assert [parts[0]] + parts[1..] == parts;
    }
  }

  /** Splits on every whitespace character (the pieces may be empty). */
  function SplitSpace(s: string): (r: seq<string>)
    ensures |r| >= 1
    ensures forall k :: 0 <= k < |r| ==> forall j :: 0 <= j < |r[k]| ==> !IsSpace(r[k][j])
  {
    if s == [] then [""]
    else
      var rest := SplitSpace(s[1..]);
      if IsSpace(s[0]) then [""] + rest else [[s[0]] + rest[0]] + rest[1..]
  }

  function NonEmpty(parts: seq<string>): (r: seq<string>)
    ensures forall k :: 0 <= k < |r| ==> r[k] != [] && r[k] in parts
    ensures |r| <= |parts|
  {
    if parts == [] then []
    else if parts[0] == [] then NonEmpty(parts[1..])
    else [parts[0]] + NonEmpty(parts[1..])
  }

  /** The trimmed text of every line that is not blank, in order. */
  function StrippedLines(lines: seq<string>): (r: seq<string>)
    ensures |r| <= |lines|
  {
    if lines == [] then []
    else if IsBlank(lines[0]) then StrippedLines(lines[1..])
    else [TrimSpace(lines[0])] + StrippedLines(lines[1..])
  }

  /** Each stripped line is non-empty and trimmed. */
  lemma {:induction false} StrippedLinesTrimmed(lines: seq<string>)
    ensures forall k :: 0 <= k < |StrippedLines(lines)| ==>
              StrippedLines(lines)[k] != [] && IsTrimmed(StrippedLines(lines)[k])
  {
    if lines != [] {
      StrippedLinesTrimmed(lines[1..]);
      if !IsBlank(lines[0]) {
        TrimSpaceEmptyIffBlank(lines[0]);
        TrimSpaceTrimmed(lines[0]);
        var r := StrippedLines(lines);
        forall k | 0 <= k < |r| ensures r[k] != [] && IsTrimmed(r[k]) {
          if k > 0 {
            assert r[k] == StrippedLines(lines[1..])[k - 1];
          }
        }
      }
    }
  }

  /** Line j of the input is not blank and trims to x. */
  predicate StripsTo(lines: seq<string>, j: int, x: string)
  {
    0 <= j < |lines| && !IsBlank(lines[j]) && TrimSpace(lines[j]) == x
  }

  /** A stripped line is the trimming of some non-blank line, and every non-blank line gives one. */
  lemma {:induction false} StrippedLinesMembers(lines: seq<string>)
    ensures forall x :: x in StrippedLines(lines) <==> exists j :: StripsTo(lines, j, x)
  {
    if lines != [] {
      StrippedLinesMembers(lines[1..]);
      forall x | x in StrippedLines(lines) ensures exists j :: StripsTo(lines, j, x) {
        if !IsBlank(lines[0]) && x == TrimSpace(lines[0]) {
          assert StripsTo(lines, 0, x);
        } else {
          assert x in StrippedLines(lines[1..]);
          var j :| StripsTo(lines[1..], j, x);
          assert lines[1..][j] == lines[j + 1];
          assert StripsTo(lines, j + 1, x);
        }
      }
      forall x | exists j :: StripsTo(lines, j, x) ensures x in StrippedLines(lines) {
        var j :| StripsTo(lines, j, x);
        if j > 0 {
          assert lines[1..][j - 1] == lines[j];
          assert StripsTo(lines[1..], j - 1, x);
        }
      }
    }
  }

  /** Go strings.Fields: the maximal runs of non-space characters. */
  function Fields(s: string): (r: seq<string>)
    ensures forall k :: 0 <= k < |r| ==> r[k] != []
  {
    NonEmpty(SplitSpace(s))
  }

  /** Concatenation of a sequence of strings. */
  function Concat(parts: seq<string>): (r: string)
  {
    if parts == [] then "" else Concat(parts[..|parts| - 1]) + parts[|parts| - 1]
  }

  /** One line of a listing: the item between an opening and a closing text. */
  function ListLine(open: string, close: string, item: string): string
  {
    open + item + close
  }

  /** A listing: one line per item, each ended by a newline. */
  function ListLines(open: string, close: string, items: seq<string>): string
  {
    if items == [] then "" else ListLine(open, close, items[0]) + "\n" + ListLines(open, close, items[1..])
  }

  lemma {:induction false} ListLinesSnoc(open: string, close: string, items: seq<string>, item: string)
    ensures ListLines(open, close, items + [item]) == ListLines(open, close, items) + (ListLine(open, close, item) + "\n")
  {
    if items == [] {
      assert [] + [item] == [item];
    } else {
      assert (items + [item])[1..] == items[1..] + [item];
      ListLinesSnoc(open, close, items[1..], item);
    }
  }

  /** Regrouping a concatenation of three sequences. */
  lemma Assoc<T>(a: seq<T>, b: seq<T>, c: seq<T>)
    ensures (a + b) + c == a + (b + c)
  {
  }

  /** A listing of two runs of items is the two listings one after the other. */
  lemma {:induction false} ListLinesAppend(open: string, close: string, a: seq<string>, b: seq<string>)
    ensures ListLines(open, close, a + b) == ListLines(open, close, a) + ListLines(open, close, b)
  {
    if a == [] {
      assert a + b == b;
    } else {
      assert (a + b)[1..] == a[1..] + b;
      ListLinesAppend(open, close, a[1..], b);
    }
  }

  /** Read back as lines, a listing gives each item's line, in order, then the empty piece after the final newline. */
  lemma {:induction false} ListLinesSplit(open: string, close: string, items: seq<string>)
    requires '\n' !in open && '\n' !in close
    requires forall k :: 0 <= k < |items| ==> '\n' !in items[k]
    ensures Split(ListLines(open, close, items), '\n') ==
              seq(|items|, k requires 0 <= k < |items| => ListLine(open, close, items[k])) + [""]
  {
    if items == [] {
      assert Split("", '\n') == [""];
    } else {
      var line := ListLine(open, close, items[0]);
      assert '\n' !in line by {
        assert forall i :: 0 <= i < |line| ==> line[i] in open || line[i] in items[0] || line[i] in close;
      }
      ListLinesSplit(open, close, items[1..]);
      SplitAfterPiece(line, ListLines(open, close, items[1..]), '\n');
      assert ListLines(open, close, items) == line + ['\n'] + ListLines(open, close, items[1..]);
      var lines := seq(|items|, k requires 0 <= k < |items| => ListLine(open, close, items[k]));
      var rest := seq(|items| - 1, k requires 0 <= k < |items| - 1 => ListLine(open, close, items[1..][k]));
      assert lines == [line] + rest;
    }
  }

  /** Go strings.Repeat of a single character. */
  function RepeatChar(c: char, n: nat): (r: string)
    ensures |r| == n && forall i :: 0 <= i < n ==> r[i] == c
  {
    if n == 0 then "" else RepeatChar(c, n - 1) + [c]
  }

  /** Decimal text of a natural number (strconv.Itoa / str() on non-negative ints). */
  function NatToString(n: nat): (r: string)
    ensures |r| >= 1 && forall i :: 0 <= i < |r| ==> '0' <= r[i] <= '9'
  {
    if n < 10 then [DigitChar(n)] else NatToString(n / 10) + [DigitChar(n % 10)]
  }

  function DigitChar(d: nat): (c: char)
    requires d < 10
    ensures '0' <= c <= '9'
  {
    (48 + d) as char
  }

  /** Decimal text of an integer with a leading '-' for negative values. */
  function IntToString(n: int): (r: string)
    ensures |r| >= 1
    ensures n < 0 <==> r[0] == '-'
  {
    if n < 0 then "-" + NatToString(-n) else NatToString(n)
  }
}
