/**
  The string operations the dashboard borrows from JavaScript: case mapping,
  substring search, splitting on a separator and printing an integer.
  Case mapping covers the ASCII letters only.
*/
module Text {

  /** `String.prototype.toLowerCase` on one character. */
  function LowerChar(c: char): (r: char)
    ensures 'A' <= c <= 'Z' ==> 'a' <= r <= 'z' && r as int - c as int == 32
    ensures !('A' <= c <= 'Z') ==> r == c
  {
    if 'A' <= c <= 'Z' then (c as int + 32) as char else c
  }

  /** `String.prototype.toUpperCase` on one character. */
  function UpperChar(c: char): (r: char)
    ensures 'a' <= c <= 'z' ==> 'A' <= r <= 'Z' && c as int - r as int == 32
    ensures !('a' <= c <= 'z') ==> r == c
  {
    if 'a' <= c <= 'z' then (c as int - 32) as char else c
  }

  function LowerCase(s: string): (r: string)
    ensures |r| == |s|
    ensures forall i :: 0 <= i < |s| ==> r[i] == LowerChar(s[i])
  {
    seq(|s|, i requires 0 <= i < |s| => LowerChar(s[i]))
  }

  function UpperCase(s: string): (r: string)
    ensures |r| == |s|
    ensures forall i :: 0 <= i < |s| ==> r[i] == UpperChar(s[i])
  {
    seq(|s|, i requires 0 <= i < |s| => UpperChar(s[i]))
  }

  /** `t` occurs in `s` starting at index `i`. */
  predicate OccursAt(s: string, t: string, i: int)
  {
    0 <= i && i + |t| <= |s| && s[i..i + |t|] == t
  }

  /** `t` occurs somewhere in `s`: the meaning of `String.prototype.includes`. */
  ghost predicate IsSubstring(t: string, s: string)
  {
    exists i :: OccursAt(s, t, i)
  }

  /** `s.includes(t)`, computed by trying every start position. */
  predicate Contains(s: string, t: string)
    decreases |s|
  {
    t <= s || (|s| > 0 && Contains(s[1..], t))
  }

  lemma {:induction false} ContainsFindsOccurrence(s: string, t: string)
    requires Contains(s, t)
    ensures IsSubstring(t, s)
    decreases |s|
  {
    if t <= s {
      assert OccursAt(s, t, 0);
    } else {
      ContainsFindsOccurrence(s[1..], t);
      var i :| OccursAt(s[1..], t, i);
      assert s[i + 1..i + 1 + |t|] == s[1..][i..i + |t|];
      assert OccursAt(s, t, i + 1);
    }
  }

  lemma {:induction false} OccurrenceFound(s: string, t: string, i: int)
    requires OccursAt(s, t, i)
    ensures Contains(s, t)
    decreases i
  {
    if i == 0 {
      assert t <= s;
    } else {
      assert s[1..][i - 1..i - 1 + |t|] == s[i..i + |t|];
      OccurrenceFound(s[1..], t, i - 1);
    }
  }

  /** The search test succeeds exactly when the query occurs somewhere in the text. */
  lemma ContainsIsSubstring(s: string, t: string)
    ensures Contains(s, t) <==> IsSubstring(t, s)
  {
    if Contains(s, t) {
      ContainsFindsOccurrence(s, t);
    }
    if IsSubstring(t, s) {
      var i :| OccursAt(s, t, i);
      OccurrenceFound(s, t, i);
    }
  }

  /** `s.split(' ')`: the maximal space-free pieces, empty ones included. */
  function Split(s: string): (r: seq<string>)
    ensures |r| >= 1
    decreases |s|
  {
    if |s| == 0 then [""]
    else if s[0] == ' ' then [""] + Split(s[1..])
    else
      var rest := Split(s[1..]);
      [[s[0]] + rest[0]] + rest[1..]
  }

  /** A space-free string is one piece. */
  lemma {:induction false} SplitWord(w: string)
    requires ' ' !in w
    ensures Split(w) == [w]
    decreases |w|
  {
    if |w| > 0 {
      SplitWord(w[1..]);
      assert [w[0]] + w[1..] == w;
    }
  }

  /** A space-free word followed by a space splits off as the first piece. */
  lemma {:induction false} SplitFirstWord(w: string, rest: string)
    requires ' ' !in w
    ensures Split(w + " " + rest) == [w] + Split(rest)
    decreases |w|
  {
    var s := w + " " + rest;
    if |w| == 0 {
      assert s[1..] == rest;
    } else {
      assert s[1..] == w[1..] + " " + rest;
      SplitFirstWord(w[1..], rest);
      assert [w[0]] + w[1..] == w;
    }
  }

  /** `ws.join(' ')`. */
  function Join(ws: seq<string>): string
    requires |ws| >= 1
    decreases |ws|
  {
    if |ws| == 1 then ws[0] else ws[0] + " " + Join(ws[1..])
  }

  /** Splitting loses nothing: joining the pieces back gives the original string. */
  lemma {:induction false} JoinSplit(s: string)
    ensures Join(Split(s)) == s
    decreases |s|
  {
    if |s| > 0 {
      JoinSplit(s[1..]);
      var rest := Split(s[1..]);
      if s[0] == ' ' {
        assert Split(s)[1..] == rest;
      } else {
        var ws := Split(s);
        assert ws[0] == [s[0]] + rest[0];
        assert ws[1..] == rest[1..];
        if |rest| > 1 {
          assert Join(rest) == rest[0] + " " + Join(rest[1..]);
        }
      }
    }
  }

  /** The pieces of a split contain no separator. */
  lemma {:induction false} SplitPiecesHaveNoSpace(s: string)
    ensures forall k :: 0 <= k < |Split(s)| ==> ' ' !in Split(s)[k]
    decreases |s|
  {
    if |s| > 0 {
      SplitPiecesHaveNoSpace(s[1..]);
      var rest := Split(s[1..]);
      var ws := Split(s);
      if s[0] == ' ' {
        assert forall k :: 1 <= k < |ws| ==> ws[k] == rest[k - 1];
      } else {
        assert forall k :: 1 <= k < |ws| ==> ws[k] == rest[k];
        assert ws[0] == [s[0]] + rest[0];
      }
    }
  }

  /** The decimal digit character for `d`. */
  function DigitChar(d: int): (c: char)
    requires 0 <= d < 10
    ensures '0' <= c <= '9' && c as int - '0' as int == d
  {
    (d + '0' as int) as char
  }

  predicate IsDigits(s: string)
  {
    forall i :: 0 <= i < |s| ==> '0' <= s[i] <= '9'
  }

  /** A canonical natural numeral: digits only, and no leading zero unless it is "0". */
  predicate IsNatNumeral(s: string)
  {
    |s| >= 1 && IsDigits(s) && (s[0] == '0' ==> s == "0")
  }

  /** A canonical integer numeral: a natural numeral, or '-' before a non-zero one. */
  predicate IsIntNumeral(s: string)
  {
    IsNatNumeral(s) || (|s| >= 2 && s[0] == '-' && IsNatNumeral(s[1..]) && s[1..] != "0")
  }

  /** The decimal numeral of `n`, without leading zeros. */
  function NatToDecimal(n: nat): (r: string)
    ensures IsNatNumeral(r)
    ensures r == "0" <==> n == 0
    decreases n
  {
    if n < 10 then [DigitChar(n)]
    else
      var prefix := NatToDecimal(n / 10);
      assert prefix[0] != '0';
      prefix + [DigitChar(n % 10)]
  }

  /** Template-literal interpolation of an integer: `${n}`. */
  function IntToDecimal(n: int): (r: string)
    ensures IsIntNumeral(r)
    ensures r[0] == '-' <==> n < 0
  {
    if n < 0 then "-" + NatToDecimal(-n) else NatToDecimal(n)
  }

  /** The value of a string of decimal digits (any other character reads as 0). */
  function DigitsValue(s: string): int
    decreases |s|
  {
    if |s| == 0 then 0
    else DigitsValue(s[..|s| - 1]) * 10 + (s[|s| - 1] as int - '0' as int)
  }

  /** The value of an optionally negative decimal numeral. */
  function DecimalValue(s: string): int
  {
    if |s| > 0 && s[0] == '-' then -DigitsValue(s[1..]) else DigitsValue(s)
  }

  lemma {:induction false} NatToDecimalValue(n: nat)
    ensures DigitsValue(NatToDecimal(n)) == n
    decreases n
  {
    if n >= 10 {
      NatToDecimalValue(n / 10);
      var r := NatToDecimal(n);
      assert r[..|r| - 1] == NatToDecimal(n / 10);
    }
  }

  /** Printing an integer and reading it back gives the integer. */
  lemma IntToDecimalValue(n: int)
    ensures DecimalValue(IntToDecimal(n)) == n
  {
    if n < 0 {
      NatToDecimalValue(-n);
      assert IntToDecimal(n)[1..] == NatToDecimal(-n);
    } else {
      NatToDecimalValue(n);
    }
  }

  /** Digits read as a non-negative value, and as a positive one when led by a non-zero digit. */
  lemma {:induction false} DigitsValueBounds(s: string)
    requires IsDigits(s)
    ensures DigitsValue(s) >= 0
    ensures |s| >= 1 && s[0] != '0' ==> DigitsValue(s) >= 1
    decreases |s|
  {
    if |s| > 0 {
      var p := s[..|s| - 1];
      assert IsDigits(p);
      DigitsValueBounds(p);
    }
  }

  /** Reading a canonical natural numeral and printing the value gives the numeral back. */
  lemma {:induction false} NatNumeralRoundTrip(s: string)
    requires IsNatNumeral(s)
    ensures DigitsValue(s) >= 0
    ensures NatToDecimal(DigitsValue(s)) == s
    decreases |s|
  {
    DigitsValueBounds(s);
    var last := s[|s| - 1] as int - '0' as int;
    if |s| == 1 {
      assert DigitsValue(s) == last;
      assert DigitChar(last) == s[0];
    } else {
      var p := s[..|s| - 1];
      assert p[0] == s[0];
      assert IsNatNumeral(p);
      DigitsValueBounds(p);
      NatNumeralRoundTrip(p);
      var v := DigitsValue(s);
      assert v == DigitsValue(p) * 10 + last && 0 <= last < 10;
      assert v / 10 == DigitsValue(p) && v % 10 == last;
      assert DigitChar(last) == s[|s| - 1];
      assert p + [s[|s| - 1]] == s;
    }
  }

  /**
    The printed numeral is the only canonical one for its value: no leading
    zeros, no "+", no "-0".
  */
  lemma IntNumeralUnique(s: string, n: int)
    requires IsIntNumeral(s)
    requires DecimalValue(s) == n
    ensures s == IntToDecimal(n)
  {
    if IsNatNumeral(s) {
      DigitsValueBounds(s);
      NatNumeralRoundTrip(s);
    } else {
      var m := s[1..];
      assert m[0] != '0';
      DigitsValueBounds(m);
      NatNumeralRoundTrip(m);
      assert "-" + m == s;
    }
  }
}
