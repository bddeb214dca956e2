/** server/cursor.ts: cursor tokens. */
module Cursor {
  import opened Values

  /** The largest integer a JavaScript number holds safely. */
  const MaxSafe: nat := 0x1F_FFFF_FFFF_FFFF

  function Digit(d: nat): char
    requires d < 10
  {
    ('0' as int + d) as char
  }

  predicate IsDigit(c: char) { '0' <= c <= '9' }

  function DigitValue(c: char): (d: nat)
    requires IsDigit(c)
    ensures d < 10 && Digit(d) == c
  {
    c as int - '0' as int
  }

  /** How an integer of that size prints. */
  function Decimal(n: nat): string {
    (if n < 10 then "" else Decimal(n / 10)) + [Digit(n % 10)]
  }

  /** What a run of digits denotes. */
  function NumberOf(digits: string): nat
    requires forall i :: 0 <= i < |digits| ==> IsDigit(digits[i])
  {
    if digits == "" then 0
    else NumberOf(digits[..|digits| - 1]) * 10 + DigitValue(digits[|digits| - 1])
  }

  predicate AllDigits(s: string) {
    s != "" && forall i :: 0 <= i < |s| ==> IsDigit(s[i])
  }

  function FormatCursor(epoch: string, snapshot: nat): string {
    epoch + ":" + Decimal(snapshot)
  }

  /** The first colon, or the length. */
  function ColonIn(s: string): (at: nat)
    ensures at <= |s|
    ensures at < |s| ==> s[at] == ':'
    ensures forall i :: 0 <= i < at ==> s[i] != ':'
  {
    if s == "" || s[0] == ':' then 0 else 1 + ColonIn(s[1..])
  }

  /** A number past MaxSafe rounds to one that is not safe either. */
  function ParseCursor(token: string): (r: Option<(string, nat)>)
    ensures r.Some? ==> r.value.0 != "" && ':' !in r.value.0 && r.value.1 <= MaxSafe
  {
    var separator := ColonIn(token);
    if separator == |token| || separator == 0 then None
    else
      var text := token[separator + 1..];
      if !AllDigits(text) then None
      else if NumberOf(text) > MaxSafe then None
      else Some((token[..separator], NumberOf(text)))
  }

  lemma {:induction false} DecimalReadsBack(n: nat)
    ensures AllDigits(Decimal(n)) && NumberOf(Decimal(n)) == n
  {
    if n >= 10 {
      DecimalReadsBack(n / 10);
      assert Decimal(n)[..|Decimal(n)| - 1] == Decimal(n / 10);
    } else {
      assert Decimal(n) == [Digit(n)] && Decimal(n)[..0] == "";
    }
  }

  lemma ColonIs(s: string, at: nat)
    requires at < |s| && s[at] == ':' && forall i :: 0 <= i < at ==> s[i] != ':'
    ensures ColonIn(s) == at
  {
  }

  /** The round trip holds exactly for the epochs and snapshots the runtime mints: an epoch that is
      not empty and has no colon, a safe integer. */
  lemma CursorRoundTrips(epoch: string, snapshot: nat)
    ensures ParseCursor(FormatCursor(epoch, snapshot)) == Some((epoch, snapshot)) <==>
            epoch != "" && ':' !in epoch && snapshot <= MaxSafe
  {
    if ':' !in epoch {
      var token := FormatCursor(epoch, snapshot);
      DecimalReadsBack(snapshot);
      ColonIs(token, |epoch|);
      assert token[..|epoch|] == epoch && token[|epoch| + 1..] == Decimal(snapshot);
    }
  }

  /** So there distinct cursors have distinct tokens. */
  lemma FormatIsInjective(e1: string, n1: nat, e2: string, n2: nat)
    requires e1 != "" && ':' !in e1 && n1 <= MaxSafe && e2 != "" && ':' !in e2 && n2 <= MaxSafe
    ensures FormatCursor(e1, n1) == FormatCursor(e2, n2) <==> e1 == e2 && n1 == n2
  {
    CursorRoundTrips(e1, n1);
    CursorRoundTrips(e2, n2);
  }

  /** And a token that parses is the formatted cursor up to leading zeros. */
  lemma ParsedIsFormatted(token: string)
    requires ParseCursor(token).Some?
    ensures
      var (epoch, snapshot) := ParseCursor(token).value;
      var text := token[|epoch| + 1..];
      && |epoch| < |token| && token == epoch + ":" + text && AllDigits(text) && NumberOf(text) == snapshot
      && (token == FormatCursor(epoch, snapshot) <==> text[0] != '0' || |text| == 1)
  {
    var separator := ColonIn(token);
    var text := token[separator + 1..];
    assert token == token[..separator] + ":" + text;
    CanonicalDigits(text);
    if token == FormatCursor(token[..separator], NumberOf(text)) {
      assert FormatCursor(token[..separator], NumberOf(text))[separator + 1..] == Decimal(NumberOf(text));
    }
  }

  lemma DecimalOfTen(n: nat, d: nat)
    requires d < 10
    ensures Decimal(n * 10 + d) == (if n > 0 then Decimal(n) else "") + [Digit(d)]
  {
    assert (n * 10 + d) / 10 == n && (n * 10 + d) % 10 == d;
  }

  /** A run of digits is how its number prints unless it starts with a superfluous zero. */
  lemma {:induction false} CanonicalDigits(s: string)
    requires AllDigits(s)
    ensures Decimal(NumberOf(s)) == s <==> s[0] != '0' || |s| == 1
    ensures s[0] != '0' ==> NumberOf(s) > 0
    ensures |s| == 1 && s[0] == '0' ==> NumberOf(s) == 0
    decreases |s|
  {
    if |s| > 1 {
      NumberSnoc(s);
      var init, last := s[..|s| - 1], s[|s| - 1];
      assert init[0] == s[0];
      hide *;
      CanonicalDigits(init);
      DecimalOfTen(NumberOf(init), DigitValue(last));
      SameInit(Decimal(NumberOf(init)), init, last);
    } else {
      OneDigit(s);
    }
  }

  lemma NumberSnoc(s: string)
    requires AllDigits(s) && |s| > 1
    ensures
      var init, last := s[..|s| - 1], s[|s| - 1];
      && AllDigits(init) && IsDigit(last) && s == init + [last] && NumberOf(s) == NumberOf(init) * 10 + DigitValue(last)
  {
  }

  lemma SameInit(a: string, b: string, c: char)
    ensures a + [c] == b + [c] <==> a == b
  {
    if a + [c] == b + [c] {
      assert a == (a + [c])[..|a|] && b == (b + [c])[..|b|];
    }
  }

  lemma OneDigit(s: string)
    requires AllDigits(s) && |s| == 1
    ensures NumberOf(s) == DigitValue(s[0]) && Decimal(NumberOf(s)) == s
    ensures NumberOf(s) == 0 <==> s[0] == '0'
  {
    NumberOfDigit(s[0]);
    assert s == [s[0]];
    hide NumberOf, Decimal;
    DecimalOfDigit(DigitValue(s[0]));
  }

  lemma NumberOfDigit(c: char)
    requires IsDigit(c)
    ensures NumberOf([c]) == DigitValue(c)
  {
    assert [c][..0] == "";
  }

  lemma DecimalOfDigit(d: nat)
    requires d < 10
    ensures Decimal(d) == [Digit(d)]
  {
    assert d % 10 == d;
  }
}
