// std::stoi as the handlers use it, on any text.
module Numerals {
  import opened Options
  import opened Decimals
  import opened Lobby

  // Leading white space, an optional sign, all the digits that follow, and the ignored rest.
  datatype Reading = Reading(blank: string, sign: string, digits: string, tail: string) {
    function Text(): string { blank + sign + digits + tail }

    function Value(): int
      requires IsDigits(digits)
    {
      var n: int := DigitsValue(digits);
      if sign == "-" then -n else n
    }
  }

  // Space, tab, newline, vertical tab, form feed or carriage return.
  predicate IsBlank(c: char) {
    c == ' ' || 9 <= c as int <= 13
  }

  predicate IsReading(r: Reading) {
    && (forall i :: 0 <= i < |r.blank| ==> IsBlank(r.blank[i]))
    && (r.sign == "" || r.sign == "+" || r.sign == "-")
    && r.digits != "" && IsDigits(r.digits)
    && (r.tail == "" || !('0' <= r.tail[0] <= '9'))
  }

  predicate IsInt(v: int) {
    -2147483648 <= v <= 2147483647
  }

  lemma {:induction false} PrefixValue(done: string, rest: string, tail: string)
    requires IsDigits(done) && IsDigits(rest) && (tail == "" || !IsDigit(tail[0]))
    ensures DigitsPrefix(rest + tail, DigitsValue(done)) == DigitsValue(done + rest)
    decreases |rest|
  {
    if rest == "" {
      assert rest + tail == tail && done + rest == done;
    } else {
      var s, more := rest + tail, done + [rest[0]];
      assert s[0] == rest[0] && s[1..] == rest[1..] + tail;
      assert more[..|more| - 1] == done;
      PrefixValue(more, rest[1..], tail);
      assert more + rest[1..] == done + rest;
    }
  }

  // Behind the white space, with rest being the digits and what follows them.
  lemma {:induction false} SignedValue(s: string, sign: string, digits: string, tail: string, rest: string)
    requires (sign == "" || sign == "+" || sign == "-") && rest == digits + tail && s == sign + rest
    requires digits != "" && IsDigits(digits) && (tail == "" || !IsDigit(tail[0]))
    ensures var n: int := DigitsValue(digits);
      var v := if sign == "-" then -n else n;
      Stoi(s) == if IsInt(v) then Some(v) else None
  {
    assert rest[0] == digits[0];
    PrefixValue("", digits, tail);
    assert "" + digits == digits;
    assert DigitsPrefix(rest, 0) == DigitsValue(digits);
    if sign == "" {
      assert s == rest;
    } else {
      assert s[0] == sign[0] && s[1..] == rest;
    }
  }

  lemma BlankFirst(r: Reading)
    requires r.blank != ""
    ensures r.Text() != "" && r.Text()[0] == r.blank[0] && r.Text()[1..] == r.(blank := r.blank[1..]).Text()
  {
  }

  // The text of a reading gives its value, or an exception when that is no int.
  lemma {:induction false} ReadingValue(r: Reading)
    requires IsReading(r)
    ensures Stoi(r.Text()) == if IsInt(r.Value()) then Some(r.Value()) else None
    decreases |r.blank|
  {
    if r.blank != "" {
      BlankFirst(r);
      ReadingValue(r.(blank := r.blank[1..]));
    } else {
      assert r.Text() == r.sign + (r.digits + r.tail);
      SignedValue(r.Text(), r.sign, r.digits, r.tail, r.digits + r.tail);
    }
  }

  lemma {:induction false} DigitRun(s: string) returns (digits: string, tail: string)
    ensures s == digits + tail && IsDigits(digits) && (tail == "" || !IsDigit(tail[0]))
    ensures s != "" && IsDigit(s[0]) ==> digits != ""
    decreases |s|
  {
    if s == "" || !IsDigit(s[0]) {
      digits, tail := "", s;
    } else {
      digits, tail := DigitRun(s[1..]);
      digits := [s[0]] + digits;
    }
  }

  lemma {:induction false} SignedReading(s: string, sign: string, rest: string) returns (r: Reading)
    requires (sign == "" || sign == "+" || sign == "-") && s == sign + rest && rest != "" && IsDigit(rest[0])
    ensures IsReading(r) && r.blank == "" && s == r.Text()
  {
    var digits, tail := DigitRun(rest);
    r := Reading("", sign, digits, tail);
    assert r.Text() == sign + (digits + tail);
  }

  lemma MoreBlank(s: string, r: Reading)
    requires s != "" && IsSpace(s[0]) && IsReading(r) && s[1..] == r.Text()
    ensures IsReading(r.(blank := [s[0]] + r.blank)) && s == r.(blank := [s[0]] + r.blank).Text()
  {
    assert s == [s[0]] + s[1..];
  }

  // Only a reading has a value.
  lemma {:induction false} HasReading(s: string) returns (r: Reading)
    requires Stoi(s).Some?
    ensures IsReading(r) && s == r.Text()
    decreases |s|
  {
    if IsSpace(s[0]) {
      r := HasReading(s[1..]);
      MoreBlank(s, r);
      r := r.(blank := [s[0]] + r.blank);
    } else if s[0] == '-' || s[0] == '+' {
      assert s == [s[0]] + s[1..];
      r := SignedReading(s, [s[0]], s[1..]);
    } else {
      r := SignedReading(s, "", s);
    }
  }

  // The exact domain and value: every other text makes it throw.
  lemma {:induction false} StoiExact(s: string, v: int)
    ensures Stoi(s) == Some(v) <==> IsInt(v) && exists r :: IsReading(r) && s == r.Text() && v == r.Value()
  {
    if Stoi(s) == Some(v) {
      var r := HasReading(s);
      ReadingValue(r);
      assert IsReading(r) && s == r.Text() && v == r.Value();
    }
    if r :| IsReading(r) && s == r.Text() && v == r.Value() { ReadingValue(r); }
  }

  // So the decimal text of a number is read as that number, with white space and a sign in front and
  // any rest behind that does not start with a digit.
  lemma {:induction false} SignedDecimalRead(blank: string, sign: string, n: nat, tail: string)
    requires forall i :: 0 <= i < |blank| ==> IsBlank(blank[i])
    requires (sign == "" || sign == "+" || sign == "-") && (tail == "" || !('0' <= tail[0] <= '9'))
    ensures var m: int := n;
      var v := if sign == "-" then -m else m;
      Stoi(blank + sign + Decimal(n) + tail) == if IsInt(v) then Some(v) else None
  {
    DecimalRoundTrip(n);
    DecimalUnique(Decimal(n), n);
    ReadingValue(Reading(blank, sign, Decimal(n), tail));
  }

  lemma {:induction false} DecimalRead(n: nat)
    ensures Stoi(Decimal(n)) == if n <= 2147483647 then Some(n) else None
  {
    SignedDecimalRead("", "", n, "");
    assert "" + "" + Decimal(n) + "" == Decimal(n);
  }
}
