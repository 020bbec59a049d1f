/**
 * The parts of Java's String and number-text behaviour that the energy journal relies on:
 * String.trim, toUpperCase, split(",", -1), String.join, replace, Integer.parseInt and
 * String.valueOf(int). Only ASCII behaviour is modelled.
 */
module Text {

  import opened Wrappers

  /** Java's `int`. */
  type Int32 = x: int | -0x8000_0000 <= x < 0x8000_0000

  // ---------------------------------------------------------------- trim

  /** String.trim drops every leading and trailing char whose code is at most U+0020. */
  predicate IsTrimmable(c: char) { c <= ' ' }

  /** trim's first loop: the start index moves past the leading blanks. */
  function TrimFrom(s: string): (st: nat)
    ensures st <= |s|
    ensures forall k :: 0 <= k < st ==> IsTrimmable(s[k])
    ensures st < |s| ==> !IsTrimmable(s[st])
  {
    if s != [] && IsTrimmable(s[0]) then 1 + TrimFrom(s[1..]) else 0
  }

  /** trim's second loop: the end index moves back over the trailing blanks, never below st. */
  function TrimTo(s: string, st: nat, len: nat): (r: nat)
    requires st <= len <= |s|
    ensures st <= r <= len
    ensures forall k :: r <= k < len ==> IsTrimmable(s[k])
    ensures st < r ==> !IsTrimmable(s[r - 1])
    decreases len
  {
    if st < len && IsTrimmable(s[len - 1]) then TrimTo(s, st, len - 1) else len
  }

  /** String.trim: the text between the leading and the trailing chars at most U+0020. */
  function Trim(s: string): (r: string)
    ensures |r| <= |s|
    ensures r != [] ==> !IsTrimmable(r[0]) && !IsTrimmable(r[|r| - 1])
  {
    var st := TrimFrom(s);
    s[st..TrimTo(s, st, |s|)]
  }

  /** Neither end of `s` is a char that trim would drop. */
  predicate IsTrimmed(s: string)
  {
    s == [] || (!IsTrimmable(s[0]) && !IsTrimmable(s[|s| - 1]))
  }

  /** Trim yields a slice of its input that has no trimmable ends, and
      it is empty exactly when the whole input is trimmable. */
  lemma TrimSpec(s: string)
    ensures IsTrimmed(Trim(s))
    ensures exists i, j :: 0 <= i <= j <= |s| && Trim(s) == s[i..j]
    ensures Trim(s) == [] <==> forall k :: 0 <= k < |s| ==> IsTrimmable(s[k])
  {
    var st := TrimFrom(s);
    var len := TrimTo(s, st, |s|);
    assert Trim(s) == s[st..len];
    if st < len {
      assert Trim(s)[0] == s[st] && Trim(s)[len - st - 1] == s[len - 1];
    }
  }

  /** Trimming an already trimmed string changes nothing, so trim is idempotent. */
  lemma TrimOfTrimmed(s: string)
    requires IsTrimmed(s)
    ensures Trim(s) == s
  {
  }

  // ---------------------------------------------------------------- case

  /** toUpperCase on ASCII: 'a'..'z' become 'A'..'Z', everything else is kept. */
  function UpperChar(c: char): (r: char)
    ensures 'a' <= c <= 'z' ==> 'A' <= r <= 'Z' && r as int == c as int - 32
    ensures !('a' <= c <= 'z') ==> r == c
  {
    if 'a' <= c <= 'z' then (c as int - 32) as char else c
  }

  /** toUpperCase: the same length, each char upper-cased in place, so no lower-case ASCII
      letter is left. */
  function Upper(s: string): (r: string)
    ensures |r| == |s|
    ensures forall i :: 0 <= i < |s| ==> r[i] == UpperChar(s[i])
    ensures forall i :: 0 <= i < |r| ==> !('a' <= r[i] <= 'z')
  {
    seq(|s|, i requires 0 <= i < |s| => UpperChar(s[i]))
  }

  /** Upper-casing keeps the length and is idempotent: no lower-case ASCII letter survives it. */
  lemma UpperIdempotent(s: string)
    ensures |Upper(s)| == |s|
    ensures forall i :: 0 <= i < |s| ==> !('a' <= Upper(s)[i] <= 'z')
    ensures Upper(Upper(s)) == Upper(s)
  {
  }

  // ---------------------------------------------------------------- split / join / replace

  /** s.split(",", -1): every comma separates two fields, trailing empty fields are kept. */
  function Split(s: string): (parts: seq<string>)
    ensures |parts| >= 1
    ensures forall k :: 0 <= k < |parts| ==> ',' !in parts[k]
  {
    if s == [] then [""]
    else
      var rest := Split(s[1..]);
      if s[0] == ',' then [""] + rest
      else [[s[0]] + rest[0]] + rest[1..]
  }

  /** String.join(",", fields). */
  function Join(fields: seq<string>): (r: string)
    ensures |fields| >= 1 ==> fields[0] <= r
    ensures |fields| >= 2 ==> |r| > |fields[0]| && r[|fields[0]|] == ','
  {
    if fields == [] then ""
    else if |fields| == 1 then fields[0]
    else fields[0] + "," + Join(fields[1..])
  }

  /** s.replace(from, to) for single chars. */
  function ReplaceChar(s: string, from: char, to: char): (r: string)
    ensures |r| == |s|
    ensures forall i :: 0 <= i < |s| && s[i] != from ==> r[i] == s[i]
    ensures forall i :: 0 <= i < |s| && s[i] == from ==> r[i] == to
    ensures from != to ==> from !in r
    ensures from !in s ==> r == s
  {
    seq(|s|, i requires 0 <= i < |s| => if s[i] == from then to else s[i])
  }

  lemma {:induction false} SplitWithoutComma(s: string)
    requires ',' !in s
    ensures Split(s) == [s]
  {
    if s != [] {
      assert ',' !in s[1..];
      SplitWithoutComma(s[1..]);
      assert s == [s[0]] + s[1..];
    }
  }

  /** A comma splits a line into the fields of its two sides. */
  lemma {:induction false} SplitAtComma(a: string, b: string)
    ensures Split(a + [','] + b) == Split(a) + Split(b)
  {
    if a != [] {
      var rest := a[1..] + [','] + b;
      SplitAtComma(a[1..], b);
      assert a + [','] + b == [a[0]] + rest;
      assert a == [a[0]] + a[1..];
      SplitCons(a[0], rest);
      SplitCons(a[0], a[1..]);
    }
  }

  /** Split of a string with a known first char. */
  lemma SplitCons(c: char, s: string)
    ensures Split([c] + s) ==
      if c == ',' then [""] + Split(s) else [[c] + Split(s)[0]] + Split(s)[1..]
  {
    assert ([c] + s)[1..] == s;
  }

  /** The number of fields is one more than the number of commas. */
  lemma {:induction false} SplitCount(s: string)
    ensures |Split(s)| == 1 + multiset(s)[',']
  {
    if s != [] {
      SplitCount(s[1..]);
      assert s == [s[0]] + s[1..];
    }
  }

  /** Joining comma-free fields and splitting the result gives the fields back. */
  lemma {:induction false} SplitJoin(fields: seq<string>)
    requires |fields| >= 1
    requires forall k :: 0 <= k < |fields| ==> ',' !in fields[k]
    ensures Split(Join(fields)) == fields
  {
    if |fields| == 1 {
      SplitWithoutComma(fields[0]);
    } else {
      SplitJoin(fields[1..]);
      SplitWithoutComma(fields[0]);
      assert fields[0] + "," + Join(fields[1..]) == fields[0] + [','] + Join(fields[1..]);
      SplitAtComma(fields[0], Join(fields[1..]));
    }
  }

  /** Commas of a join: one per separator plus those inside the fields. */
  lemma {:induction false} JoinCommas(fields: seq<string>)
    requires |fields| >= 1
    ensures multiset(Join(fields))[','] == |fields| - 1 + CommasIn(fields)
  {
    if |fields| > 1 {
      JoinCommas(fields[1..]);
      assert fields == [fields[0]] + fields[1..];
    }
  }

  /** Total number of commas inside a list of fields. */
  function CommasIn(fields: seq<string>): nat
  {
    if fields == [] then 0 else multiset(fields[0])[','] + CommasIn(fields[1..])
  }

  /** Fields without commas contribute none. */
  lemma {:induction false} CommasInNone(fields: seq<string>)
    requires forall k :: 0 <= k < |fields| ==> ',' !in fields[k]
    ensures CommasIn(fields) == 0
  {
    if fields != [] {
      CommasInNone(fields[1..]);
    }
  }

  /** When only field j may hold commas, those are all the commas. */
  lemma {:induction false} CommasInOne(fields: seq<string>, j: nat)
    requires j < |fields|
    requires forall k :: 0 <= k < |fields| && k != j ==> ',' !in fields[k]
    ensures CommasIn(fields) == multiset(fields[j])[',']
  {
    if j == 0 {
      CommasInNone(fields[1..]);
    } else {
      assert ',' !in fields[0];
      CommasInOne(fields[1..], j - 1);
    }
  }

  /** A join starts with the first char of its first field and ends with the last char of its last. */
  lemma JoinEnds(fields: seq<string>)
    requires |fields| >= 1 && fields[0] != [] && fields[|fields| - 1] != []
    ensures Join(fields) != [] && Join(fields)[0] == fields[0][0]
    ensures Join(fields)[|Join(fields)| - 1] == fields[|fields| - 1][|fields[|fields| - 1]| - 1]
  {
    JoinLast(fields);
  }

  lemma {:induction false} JoinLast(fields: seq<string>)
    requires |fields| >= 1 && fields[|fields| - 1] != []
    ensures Join(fields) != []
    ensures Join(fields)[|Join(fields)| - 1] == fields[|fields| - 1][|fields[|fields| - 1]| - 1]
  {
    if |fields| > 1 {
      JoinLast(fields[1..]);
    }
  }

  /** A field that holds a comma joins like the two fields on either side of it. */
  lemma {:induction false} JoinSplitField(fields: seq<string>, j: nat, a: string, b: string)
    requires j < |fields| && fields[j] == a + "," + b
    ensures Join(fields) == Join(fields[..j] + [a, b] + fields[j + 1..])
  {
    var g := fields[..j] + [a, b] + fields[j + 1..];
    if j == 0 {
      assert g == [a] + ([b] + fields[1..]);
      assert g[1..] == [b] + fields[1..];
      if |fields| > 1 {
        assert ([b] + fields[1..])[1..] == fields[1..];
      }
    } else {
      var rest := fields[1..];
      JoinSplitField(rest, j - 1, a, b);
      assert g[1..] == rest[..j - 1] + [a, b] + rest[j..];
      assert g[0] == fields[0];
    }
  }

  // ---------------------------------------------------------------- digits and integers

  predicate IsDigit(c: char) { '0' <= c <= '9' }

  predicate AllDigits(s: string) { forall k :: 0 <= k < |s| ==> IsDigit(s[k]) }

  function DigitChar(d: nat): (c: char)
    requires d < 10
    ensures IsDigit(c) && c as int - '0' as int == d
  {
    ('0' as int + d) as char
  }

  /** The value of a string of decimal digits (leading zeros allowed). */
  function DigitsValue(s: string): nat
    requires AllDigits(s)
  {
    if s == [] then 0
    else
      assert IsDigit(s[|s| - 1]);
      DigitsValue(s[..|s| - 1]) * 10 + (s[|s| - 1] as int - '0' as int)
  }

  function DigitValue(c: char): int { c as int - '0' as int }

  lemma DigitsValue2(s: string)
    requires |s| == 2 && AllDigits(s)
    ensures DigitsValue(s) == 10 * DigitValue(s[0]) + DigitValue(s[1])
  {
    assert s[..1][..0] == [];
    assert DigitsValue(s[..1]) == DigitValue(s[0]);
    assert s[..|s| - 1] == s[..1];
  }

  lemma DigitsValue4(s: string)
    requires |s| == 4 && AllDigits(s)
    ensures DigitsValue(s) == 1000 * DigitValue(s[0]) + 100 * DigitValue(s[1]) + 10 * DigitValue(s[2]) + DigitValue(s[3])
  {
    assert s[..3][..2] == s[..2];
    DigitsValue2(s[..2]);
  }

  /** Decimal digits of n without leading zeros, as String.valueOf prints them. */
  function NatToString(n: nat): (r: string)
    ensures r != [] && AllDigits(r)
    decreases n
  {
    if n < 10 then [DigitChar(n)] else NatToString(n / 10) + [DigitChar(n % 10)]
  }

  lemma {:induction false} NatToStringRoundTrip(n: nat)
    ensures DigitsValue(NatToString(n)) == n
  {
    if n >= 10 {
      NatToStringRoundTrip(n / 10);
      var s := NatToString(n);
      assert s[..|s| - 1] == NatToString(n / 10);
    }
  }

  /** String.valueOf(int). */
  function IntToString(n: int): string
  {
    if n < 0 then "-" + NatToString(-n) else NatToString(n)
  }

  /** Integer.parseInt on ASCII text: an optional sign, at least one digit, and a value
      that fits in 32 bits; anything else throws, which is None here. */
  function ParseInt(s: string): (r: Option<Int32>)
    ensures r.Some? ==> s != [] && IsDigit(s[|s| - 1])
    ensures r.Some? ==> IsDigit(s[0]) || s[0] == '-' || s[0] == '+'
    ensures r.Some? && r.value < 0 ==> s[0] == '-'
  {
    if s == [] then None
    else if s[0] == '-' then ParseMagnitude(true, s[1..])
    else if s[0] == '+' then ParseMagnitude(false, s[1..])
    else ParseMagnitude(false, s)
  }

  function ParseMagnitude(negative: bool, digits: string): Option<Int32>
  {
    if digits == [] || !AllDigits(digits) then None
    else
      var magnitude: int := DigitsValue(digits);
      var v := if negative then -magnitude else magnitude;
      if -0x8000_0000 <= v < 0x8000_0000 then Some(v) else None
  }

  /** Integer.parseInt(String.valueOf(n)) == n for every int. */
  lemma IntRoundTrip(n: Int32)
    ensures ParseInt(IntToString(n)) == Some(n)
  {
    if n < 0 {
      NegativeIntRoundTrip(n);
    } else {
      NatToStringRoundTrip(n);
    }
  }

  lemma NegativeIntRoundTrip(n: Int32)
    requires n < 0
    ensures ParseInt(IntToString(n)) == Some(n)
  {
    var m: nat := -(n as int);
    NatToStringRoundTrip(m);
    var s := IntToString(n);
    assert s[0] == '-' && s[1..] == NatToString(m);
  }

  /** Two-digit zero-padded field, as in "%02d". */
  function Fixed2(n: int): (r: string)
    requires 0 <= n < 100
    ensures |r| == 2 && AllDigits(r)
  {
    [DigitChar(n / 10), DigitChar(n % 10)]
  }

  /** Four-digit zero-padded field, as in "%04d": the hundreds, then the rest, each in two digits. */
  function Fixed4(n: int): (r: string)
    requires 0 <= n < 10000
    ensures |r| == 4 && AllDigits(r)
  {
    Fixed2(n / 100) + Fixed2(n % 100)
  }

  lemma Fixed2RoundTrip(n: int)
    requires 0 <= n < 100
    ensures DigitsValue(Fixed2(n)) == n
  {
    DigitsValue2(Fixed2(n));
  }

  lemma Fixed4RoundTrip(n: int)
    requires 0 <= n < 10000
    ensures DigitsValue(Fixed4(n)) == n
  {
    var s := Fixed4(n);
    Fixed2RoundTrip(n / 100);
    Fixed2RoundTrip(n % 100);
    DigitsHalves(s);
    assert s[..2] == Fixed2(n / 100) && s[2..] == Fixed2(n % 100);
  }

  /** Four digits are worth a hundred times their first two plus their last two. */
  lemma DigitsHalves(s: string)
    requires |s| == 4 && AllDigits(s)
    ensures AllDigits(s[..2]) && AllDigits(s[2..])
    ensures DigitsValue(s) == 100 * DigitsValue(s[..2]) + DigitsValue(s[2..])
  {
    DigitsValue4(s);
    DigitsValue2(s[..2]);
    DigitsValue2(s[2..]);
  }

  /** Dividing 100 * hi + lo by 100, for a two-digit lo. */
  lemma DivMod100(hi: int, lo: int)
    requires 0 <= lo < 100
    ensures (100 * hi + lo) / 100 == hi && (100 * hi + lo) % 100 == lo
  {
  }

  /** Every two-digit text is the padded form of its value. */
  lemma Fixed2Canonical(s: string)
    requires |s| == 2 && AllDigits(s)
    ensures DigitsValue(s) < 100 && Fixed2(DigitsValue(s)) == s
  {
    DigitsValue2(s);
    assert IsDigit(s[0]) && IsDigit(s[1]);
  }

  /** Every four-digit text is the padded form of its value. */
  lemma Fixed4Canonical(s: string)
    requires |s| == 4 && AllDigits(s)
    ensures DigitsValue(s) < 10000 && Fixed4(DigitsValue(s)) == s
  {
    DigitsHalves(s);
    Fixed2Canonical(s[..2]);
    Fixed2Canonical(s[2..]);
    DivMod100(DigitsValue(s[..2]), DigitsValue(s[2..]));
    assert s[..2] + s[2..] == s;
  }
}
