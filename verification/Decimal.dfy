/** Decimal numbers as the shell writes them and atoi() reads them. */
module Decimal {

  predicate IsDigit(c: char) {
    '0' <= c <= '9'
  }

  predicate IsSpace(c: char) {
    c == ' ' || '\t' <= c <= '\r'
  }

  function Digit(d: nat): (c: char)
    requires d < 10
    ensures IsDigit(c) && c as int - '0' as int == d
  {
    '0' + d as char
  }

  /** What `echo $?` prints, without the newline. */
  function Show(n: nat): (s: string)
    ensures s != "" && forall i :: 0 <= i < |s| ==> IsDigit(s[i])
  {
    if n < 10 then [Digit(n)] else Show(n / 10) + [Digit(n % 10)]
  }

  /** Value of the leading digits. */
  function Digits(s: string, acc: nat): nat {
    if s == "" || !IsDigit(s[0]) then acc
    else Digits(s[1..], 10 * acc + (s[0] as int - '0' as int))
  }

  /** atoi(), on numbers that fit an int. */
  function Atoi(s: string): int {
    if s == "" then 0
    else if IsSpace(s[0]) then Atoi(s[1..])
    else if s[0] == '-' then -(Digits(s[1..], 0) as int)
    else if s[0] == '+' then Digits(s[1..], 0)
    else Digits(s, 0)
  }

  lemma {:induction false} DigitsAppend(s: string, c: char, acc: nat)
    requires forall i :: 0 <= i < |s| ==> IsDigit(s[i])
    requires IsDigit(c)
    ensures Digits(s + [c], acc) == 10 * Digits(s, acc) + (c as int - '0' as int)
  {
    if s == "" {
      assert s + [c] == [c] && [c][1..] == "";
    } else {
      assert (s + [c])[1..] == s[1..] + [c];
      DigitsAppend(s[1..], c, 10 * acc + (s[0] as int - '0' as int));
    }
  }

  lemma {:induction false} DigitsOfShow(n: nat)
    ensures Digits(Show(n), 0) == n
  {
    if n < 10 {
      assert Show(n)[1..] == "";
    } else {
      DigitsOfShow(n / 10);
      DigitsAppend(Show(n / 10), Digit(n % 10), 0);
    }
  }

  /** atoi() undoes the printing of a number. */
  lemma AtoiOfShow(n: nat)
    ensures Atoi(Show(n)) == n
  {
    DigitsOfShow(n);
    assert IsDigit(Show(n)[0]);
  }

  lemma {:induction false} DigitsStop(s: string, tail: string, acc: nat)
    requires (forall i :: 0 <= i < |s| ==> IsDigit(s[i])) && (tail == "" || !IsDigit(tail[0]))
    ensures Digits(s + tail, acc) == Digits(s, acc)
  {
    if s == "" {
      assert s + tail == tail;
    } else {
      assert (s + tail)[1..] == s[1..] + tail;
      DigitsStop(s[1..], tail, 10 * acc + (s[0] as int - '0' as int));
    }
  }

  /** A number with its sign. */
  lemma SignedNumber(sign: string, n: nat, tail: string)
    requires (sign == "" || sign == "+" || sign == "-") && (tail == "" || !IsDigit(tail[0]))
    ensures Atoi(sign + (Show(n) + tail)) == if sign == "-" then -(n as int) else n as int
  {
    var u := Show(n) + tail;
    DigitsOfShow(n);
    DigitsStop(Show(n), tail, 0);
    hide Show, Digits;
    assert IsDigit(u[0]);
    assert (sign + u)[|sign|..] == u;
    assert (sign + u)[0] == if sign == "" then u[0] else sign[0];
  }

  /** atoi() skips the blanks, takes a sign, and stops at the first character that is not a digit. */
  lemma {:induction false} AtoiMeans(blanks: string, sign: string, n: nat, tail: string)
    requires (forall i :: 0 <= i < |blanks| ==> blanks[i] as int == 32 || 9 <= blanks[i] as int <= 13)
    requires sign == "" || sign == "+" || sign == "-"
    requires tail == "" || !IsDigit(tail[0])
    ensures Atoi(blanks + (sign + (Show(n) + tail))) == if sign == "-" then -(n as int) else n as int
    decreases |blanks|
  {
    var t := sign + (Show(n) + tail);
    hide Show, Digits;
    if blanks == "" {
      assert blanks + t == t;
      SignedNumber(sign, n, tail);
    } else {
      assert (blanks + t)[0] == blanks[0] && (blanks + t)[1..] == blanks[1..] + t;
      AtoiMeans(blanks[1..], sign, n, tail);
    }
  }

  /** It gives 0 when there is no number. */
  lemma NoNumber(t: string)
    requires t == "" || !(IsDigit(t[0]) || IsSpace(t[0]) || t[0] == '-' || t[0] == '+')
    ensures Atoi(t) == 0
  {
  }
}
