/** String helpers shared by the katas: joining with a one-character
    separator, JavaScript's `split` on a one-character separator, and the
    decimal rendering of integers used by template literals. */
module StringUtils {
  import opened Options

  /** Number of occurrences of `c` in `s`. */
  function Count(s: string, c: char): nat
  {
    if |s| == 0 then 0 else (if s[0] == c then 1 else 0) + Count(s[1..], c)
  }

  lemma {:induction false} CountAppend(a: string, b: string, c: char)
    ensures Count(a + b, c) == Count(a, c) + Count(b, c)
  {
    if |a| == 0 {
      assert a + b == b;
    } else {
      assert (a + b)[1..] == a[1..] + b;
      CountAppend(a[1..], b, c);
    }
  }

  lemma {:induction false} CountZero(s: string, c: char)
    ensures Count(s, c) == 0 <==> c !in s
  {
    if |s| > 0 {
      CountZero(s[1..], c);
      assert s == [s[0]] + s[1..];
    }
  }

  /** `parts[0] + sep + parts[1] + sep + ...`, the result of `Array.prototype.join(sep)`. */
  function Join(parts: seq<string>, sep: char): string
  {
    if |parts| == 0 then ""
    else if |parts| == 1 then parts[0]
    else parts[0] + [sep] + Join(parts[1..], sep)
  }

  /** `s.split(sep)` for a one-character separator: the maximal pieces between
      separators, so there is always one more piece than separators. */
  function Split(s: string, sep: char): (parts: seq<string>)
    ensures |parts| == Count(s, sep) + 1
    ensures forall k :: 0 <= k < |parts| ==> sep !in parts[k]
  {
    if |s| == 0 then [""]
    else if s[0] == sep then [""] + Split(s[1..], sep)
    else
      var rest := Split(s[1..], sep);
      [[s[0]] + rest[0]] + rest[1..]
  }

  /** Joining with one more piece in front. */
  lemma JoinFront(x: string, rest: seq<string>, sep: char)
    ensures Join([x] + rest, sep) == if |rest| == 0 then x else x + [sep] + Join(rest, sep)
  {
    assert ([x] + rest)[0] == x && ([x] + rest)[1..] == rest;
  }

  /** A join of pieces with non-empty ends starts with the first piece's
      first character and ends with the last piece's last character. */
  lemma JoinEnds(parts: seq<string>, sep: char)
    requires |parts| > 0 && |parts[0]| > 0 && |parts[|parts| - 1]| > 0
    ensures var j, last := Join(parts, sep), parts[|parts| - 1];
      |j| > 0 && j[0] == parts[0][0] && j[|j| - 1] == last[|last| - 1]
  {
    JoinFront(parts[0], parts[1..], sep);
    assert [parts[0]] + parts[1..] == parts;
    LastOne(parts);
    JoinSnoc(parts[..|parts| - 1], parts[|parts| - 1], sep);
  }

  /** Joining one more piece adds the separator and the piece at the end. */
  lemma {:induction false} JoinSnoc(parts: seq<string>, x: string, sep: char)
    ensures Join(parts + [x], sep) == if |parts| == 0 then x else Join(parts, sep) + [sep] + x
    decreases |parts|
  {
    if |parts| == 0 {
      assert parts + [x] == [x];
    } else if |parts| > 1 {
      assert (parts + [x])[1..] == parts[1..] + [x];
      JoinSnoc(parts[1..], x, sep);
    }
  }

  /** Joining the pieces of a split with the same separator gives the string back. */
  lemma {:induction false} JoinSplit(s: string, sep: char)
    ensures Join(Split(s, sep), sep) == s
  {
    if |s| == 0 {
    } else if s[0] == sep {
      JoinSplit(s[1..], sep);
      var rest := Split(s[1..], sep);
      assert Split(s, sep) == [""] + rest;
      assert ([""] + rest)[1..] == rest;
      assert s == [sep] + s[1..];
    } else {
      JoinSplit(s[1..], sep);
      var rest := Split(s[1..], sep);
      var parts := [[s[0]] + rest[0]] + rest[1..];
      assert Split(s, sep) == parts;
      if |rest| == 1 {
        assert s == [s[0]] + rest[0];
      } else {
        assert parts[1..] == rest[1..];
        assert Join(rest, sep) == rest[0] + [sep] + Join(rest[1..], sep);
        assert s == [s[0]] + s[1..];
      }
    }
  }

  /** A string without the separator splits into itself alone. */
  lemma {:induction false} SplitNoSep(s: string, sep: char)
    requires sep !in s
    ensures Split(s, sep) == [s]
  {
    if |s| > 0 {
      SplitNoSep(s[1..], sep);
      assert s == [s[0]] + s[1..];
    }
  }

  /** Splitting at the first separator, at position `k`. */
  lemma {:induction false} SplitFirstSep(s: string, sep: char, k: nat)
    requires k < |s| && s[k] == sep && sep !in s[..k]
    ensures Split(s, sep) == [s[..k]] + Split(s[k + 1..], sep)
  {
    if k > 0 {
      assert s[1..][..k - 1] == s[..k][1..];
      SplitFirstSep(s[1..], sep, k - 1);
      assert s[1..][k..] == s[k + 1..];
      assert s[..k] == [s[0]] + s[1..][..k - 1];
    }
  }

  /** Splitting a join gives the pieces back, provided no piece holds the
      separator. */
  lemma {:induction false} SplitJoin(parts: seq<string>, sep: char)
    requires |parts| >= 1
    requires forall k :: 0 <= k < |parts| ==> sep !in parts[k]
    ensures Split(Join(parts, sep), sep) == parts
  {
    if |parts| == 1 {
      SplitNoSep(parts[0], sep);
    } else {
      var rest := Join(parts[1..], sep);
      var s := parts[0] + [sep] + rest;
      assert s[..|parts[0]|] == parts[0];
      assert s[|parts[0]| + 1..] == rest;
      SplitFirstSep(s, sep, |parts[0]|);
      SplitJoin(parts[1..], sep);
      assert parts == [parts[0]] + parts[1..];
    }
  }

  /** The characters of a join are those of the pieces and the separator. */
  lemma {:induction false} JoinChars(parts: seq<string>, sep: char, ch: char)
    requires ch in Join(parts, sep) && ch != sep
    ensures exists k :: 0 <= k < |parts| && ch in parts[k]
  {
    if |parts| > 1 {
      var rest := Join(parts[1..], sep);
      if ch !in parts[0] {
        assert ch in rest;
        JoinChars(parts[1..], sep, ch);
        var k :| 0 <= k < |parts| - 1 && ch in parts[1..][k];
        assert ch in parts[k + 1];
      }
    }
  }

  /** Every character of a piece of `Split(s, sep)` is a character of `s`. */
  lemma {:induction false} SplitChars(s: string, sep: char, k: int, ch: char)
    requires 0 <= k < |Split(s, sep)|
    requires ch in Split(s, sep)[k]
    ensures ch in s
  {
    if |s| == 0 {
    } else if s[0] == sep {
      if k > 0 {
        SplitChars(s[1..], sep, k - 1, ch);
      }
    } else {
      var rest := Split(s[1..], sep);
      if k == 0 {
        if ch != s[0] {
          assert ch in rest[0];
          SplitChars(s[1..], sep, 0, ch);
        }
      } else {
        SplitChars(s[1..], sep, k, ch);
      }
    }
  }

  lemma AppendAssoc<T>(a: seq<T>, b: seq<T>, c: seq<T>)
    ensures (a + b) + c == a + (b + c)
  {
  }

  /** A non-empty sequence is its prefix followed by its last element. */
  lemma LastOne<T>(s: seq<T>)
    requires |s| >= 1
    ensures s == s[..|s| - 1] + [s[|s| - 1]]
  {
  }

  /** A sequence is its prefix followed by its last two elements. */
  lemma LastTwo<T>(s: seq<T>)
    requires |s| >= 2
    ensures s == s[..|s| - 2] + [s[|s| - 2], s[|s| - 1]]
  {
  }

  /** Every piece followed by the separator: what a loop that writes
      `piece + sep` for each piece builds. */
  function Terminated(parts: seq<string>, sep: char): string
  {
    if |parts| == 0 then "" else Terminated(parts[..|parts| - 1], sep) + (parts[|parts| - 1] + [sep])
  }

  /** `s.slice(0, s.length - 1)`: all but the last character. */
  function DropLast(s: string): string
  {
    if |s| == 0 then s else s[..|s| - 1]
  }

  lemma {:induction false} TerminatedAppend(a: seq<string>, b: seq<string>, sep: char)
    ensures Terminated(a + b, sep) == Terminated(a, sep) + Terminated(b, sep)
    decreases |b|
  {
    if |b| == 0 {
      assert a + b == a;
    } else {
      var ab, init, last := a + b, b[..|b| - 1], b[|b| - 1];
      assert ab[..|ab| - 1] == a + init && ab[|ab| - 1] == last;
      TerminatedAppend(a, init, sep);
    }
  }

  /** Dropping the separator written after the last piece leaves the pieces
      joined by the separator. */
  lemma {:induction false} TerminatedJoin(parts: seq<string>, sep: char)
    ensures DropLast(Terminated(parts, sep)) == Join(parts, sep)
    decreases |parts|
  {
    if |parts| > 0 {
      var init, last := parts[..|parts| - 1], parts[|parts| - 1];
      TerminatedJoin(init, sep);
      LastOne(parts);
      JoinSnoc(init, last, sep);
      var e := Terminated(init, sep);
      DropLastSnoc(e, last, sep);
      if |init| > 0 {
        assert |e| > 0 && e == DropLast(e) + [sep];
      }
    }
  }

  lemma DropLastSnoc(e: string, x: string, sep: char)
    ensures DropLast(e + (x + [sep])) == e + x
  {
    assert (e + (x + [sep]))[..|e| + |x|] == e + x;
  }

  /** Every piece preceded by the separator: what a loop that writes
      `sep + piece` for each piece builds. */
  function Led(parts: seq<string>, sep: char): string
  {
    if |parts| == 0 then "" else Led(parts[..|parts| - 1], sep) + ([sep] + parts[|parts| - 1])
  }

  /** Pieces each led by the separator are the separator followed by the
      pieces joined. */
  lemma {:induction false} LedJoin(parts: seq<string>, sep: char)
    requires |parts| > 0
    ensures Led(parts, sep) == [sep] + Join(parts, sep)
    decreases |parts|
  {
    var init, last := parts[..|parts| - 1], parts[|parts| - 1];
    assert parts == init + [last];
    JoinSnoc(init, last, sep);
    if |init| > 0 {
      LedJoin(init, sep);
    }
  }

  /** Joining two non-empty lists of pieces puts one separator between their
      joins. */
  lemma {:induction false} JoinAppend(a: seq<string>, b: seq<string>, sep: char)
    requires |a| > 0 && |b| > 0
    ensures Join(a + b, sep) == Join(a, sep) + [sep] + Join(b, sep)
    decreases |a|
  {
    if |a| > 1 {
      assert (a + b)[1..] == a[1..] + b;
      JoinAppend(a[1..], b, sep);
    } else {
      assert (a + b)[1..] == b;
    }
  }

  /** The decimal digits of `n`, most significant first, without a sign. */
  function NatToString(n: nat): (r: string)
    ensures |r| >= 1
    ensures forall k :: 0 <= k < |r| ==> '0' <= r[k] <= '9'
    decreases n
  {
    if n < 10 then [DigitChar(n)] else NatToString(n / 10) + [DigitChar(n % 10)]
  }

  function DigitChar(d: nat): (c: char)
    requires d < 10
    ensures '0' <= c <= '9'
  {
    (('0' as int) + d) as char
  }

  /** The value of a string of decimal digits (`+` or `Number()` applied to it). */
  function DecimalValue(s: string): nat
    requires forall k :: 0 <= k < |s| ==> '0' <= s[k] <= '9'
  {
    if |s| == 0 then 0
    else DecimalValue(s[..|s| - 1]) * 10 + ((s[|s| - 1] as int) - ('0' as int))
  }

  /** Reading the decimal rendering of a natural number gives the number back. */
  lemma {:induction false} DecimalValueOfNatToString(n: nat)
    ensures DecimalValue(NatToString(n)) == n
    decreases n
  {
    var r := NatToString(n);
    if n >= 10 {
      DecimalValueOfNatToString(n / 10);
      assert r[..|r| - 1] == NatToString(n / 10);
    }
  }

  /** `${n}` for an integer: an optional minus sign followed by the digits. */
  function IntToString(n: int): (r: string)
    ensures |r| >= 1
    ensures r[|r| - 1] != '-' && r[|r| - 1] != ','
    ensures ',' !in r
    ensures forall k :: 1 <= k < |r| ==> r[k] != '-'
  {
    if n >= 0 then NatToString(n) else "-" + NatToString(-n)
  }

  predicate IsDigits(s: string)
  {
    forall k :: 0 <= k < |s| ==> '0' <= s[k] <= '9'
  }

  lemma DigitsAppend(a: string, b: string)
    requires IsDigits(a) && IsDigits(b)
    ensures IsDigits(a + b)
  {
    assert forall k :: 0 <= k < |a + b| ==> (a + b)[k] == if k < |a| then a[k] else b[k - |a|];
  }

  /** Reads an integer written as an optional minus sign followed by decimal
      digits; anything else is not an integer. */
  function ParseInt(s: string): Option<int>
  {
    if |s| > 1 && s[0] == '-' && IsDigits(s[1..]) then Some(-(DecimalValue(s[1..]) as int))
    else if |s| > 0 && IsDigits(s) then Some(DecimalValue(s))
    else None
  }

  /** Reading the rendering of an integer gives the integer back. */
  lemma ParseIntOfIntToString(n: int)
    ensures ParseInt(IntToString(n)) == Some(n)
  {
    if n >= 0 {
      DecimalValueOfNatToString(n);
    } else {
      var d := NatToString(-n);
      assert ("-" + d)[1..] == d;
      DecimalValueOfNatToString(-n);
    }
  }

  /** The first position from `i` on where `c` occurs, or `|s|` if none. */
  function IndexFrom(s: string, c: char, i: nat): (k: nat)
    requires i <= |s|
    ensures i <= k <= |s| && (k < |s| ==> s[k] == c)
    ensures forall j :: i <= j < k ==> s[j] != c
    decreases |s| - i
  {
    if i == |s| || s[i] == c then i else IndexFrom(s, c, i + 1)
  }
}
