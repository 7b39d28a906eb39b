/** `formatPhone` of src/modules/formatPhone.ts: the Brazilian phone mask
    "(DD) DDDDD-DDDD" applied to whatever digits the input holds. */
module Phone {

  /** `\d` of a JavaScript regular expression: the ASCII digits only. */
  predicate IsDigit(c: char) {
    '0' <= c <= '9'
  }

  predicate AllDigits(s: string) {
    forall i :: 0 <= i < |s| ==> IsDigit(s[i])
  }

  /** `phone.replace(/\D/g, "")`: the digits of `s`, in order. */
  function KeepDigits(s: string): (r: string)
    ensures AllDigits(r) && |r| <= |s|
  {
    if s == [] then []
    else if IsDigit(s[0]) then [s[0]] + KeepDigits(s[1..])
    else KeepDigits(s[1..])
  }

  /** `digits.slice(0, 11)`. */
  function Take(s: string, n: nat): (r: string)
    ensures r == if |s| <= n then s else s[..n]
  {
    if |s| <= n then s else s[..n]
  }

  /** The mask for at most eleven digits. */
  function Mask(d: string): (r: string)
    requires |d| <= 11
    ensures |r| == if |d| == 0 then 0 else if |d| <= 2 then |d| + 1 else if |d| <= 6 then |d| + 3 else |d| + 4
    ensures |r| <= 15
  {
    if |d| == 0 then ""
    else if |d| <= 2 then "(" + d
    else if |d| <= 6 then "(" + d[..2] + ") " + d[2..]
    else if |d| <= 10 then "(" + d[..2] + ") " + d[2..6] + "-" + d[6..]
    else "(" + d[..2] + ") " + d[2..7] + "-" + d[7..]
  }

  /** An input without digits formats to ""; any other input to at most
      the fifteen characters of "(DD) DDDDD-DDDD". */
  function FormatPhone(phone: string): (r: string)
    ensures r == "" <==> KeepDigits(phone) == ""
    ensures |r| <= 15
  {
    Mask(Take(KeepDigits(phone), 11))
  }

  /** The digits of a concatenation are the digits of each part. */
  lemma {:induction false} KeepDigitsAppend(a: string, b: string)
    ensures KeepDigits(a + b) == KeepDigits(a) + KeepDigits(b)
  {
    if a == [] {
      assert a + b == b;
    } else {
      assert (a + b)[0] == a[0];
      assert (a + b)[1..] == a[1..] + b;
      KeepDigitsAppend(a[1..], b);
    }
  }

  lemma {:induction false} KeepDigitsOfDigits(d: string)
    requires AllDigits(d)
    ensures KeepDigits(d) == d
  {
    if d != [] {
      KeepDigitsOfDigits(d[1..]);
    }
  }

  /** Each group the mask writes is separated from the next by punctuation
      and a space only, so the digits of the mask are the digits it was given. */
  lemma MaskKeepsDigits(d: string)
    requires |d| <= 11 && AllDigits(d)
    ensures KeepDigits(Mask(d)) == d
  {
    KeepDigitsOfDigits(d);
    if |d| == 0 {
    } else if |d| <= 2 {
      KeepDigitsAppend("(", d);
    } else if |d| <= 6 {
      PartsKeepDigits3(d[..2], d[2..]);
      assert d[..2] + d[2..] == d;
    } else if |d| <= 10 {
      PartsKeepDigits4(d[..2], d[2..6], d[6..]);
      assert d[..2] + d[2..6] + d[6..] == d;
    } else {
      PartsKeepDigits4(d[..2], d[2..7], d[7..]);
      assert d[..2] + d[2..7] + d[7..] == d;
    }
  }

  lemma PartsKeepDigits3(a: string, b: string)
    requires AllDigits(a) && AllDigits(b)
    ensures KeepDigits("(" + a + ") " + b) == a + b
  {
    KeepDigitsOfDigits(a);
    KeepDigitsOfDigits(b);
    KeepDigitsAppend("(", a);
    assert KeepDigits("(") == "" && KeepDigits(") ") == "";
    assert KeepDigits("(" + a) == a;
    KeepDigitsAppend("(" + a, ") ");
    assert KeepDigits("(" + a + ") ") == a;
    KeepDigitsAppend("(" + a + ") ", b);
  }

  lemma PartsKeepDigits4(a: string, b: string, c: string)
    requires AllDigits(a) && AllDigits(b) && AllDigits(c)
    ensures KeepDigits("(" + a + ") " + b + "-" + c) == a + b + c
  {
    var p := "(" + a + ") " + b;
    PartsKeepDigits3(a, b);
    KeepDigitsAppend(p, "-");
    assert KeepDigits("-") == "";
    assert KeepDigits(p + "-") == a + b;
    KeepDigitsOfDigits(c);
    KeepDigitsAppend(p + "-", c);
    assert "(" + a + ") " + b + "-" + c == (p + "-") + c;
  }

  /** The digits of the formatted number are the first eleven digits of the
      input, in order. */
  lemma FormatKeepsDigits(phone: string)
    ensures KeepDigits(FormatPhone(phone)) == Take(KeepDigits(phone), 11)
  {
    MaskKeepsDigits(Take(KeepDigits(phone), 11));
  }

  /** Formatting an already formatted number changes nothing, so the input
      handler can re-apply the mask on every keystroke. */
  lemma FormatIdempotent(phone: string)
    ensures FormatPhone(FormatPhone(phone)) == FormatPhone(phone)
  {
    FormatKeepsDigits(phone);
  }
}
