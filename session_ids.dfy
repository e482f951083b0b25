/**
 * Session identifiers `chat-N`: N is written in decimal. The scheme used by
 * `create_new_session` takes N = (number of sessions) + 1, which is not
 * necessarily fresh once a session has been deleted.
 */
module SessionIds {

  const Prefix: string := "chat-"

  predicate IsDigit(c: char) {
    '0' <= c <= '9'
  }

  predicate AllDigits(s: string) {
    forall i :: 0 <= i < |s| ==> IsDigit(s[i])
  }

  function DigitChar(d: nat): (c: char)
    requires d < 10
    ensures IsDigit(c) && (c == '0' <==> d == 0)
  {
    (48 + d) as char
  }

  /** Python's `str(n)` for a non-negative integer: no sign, no leading zero. */
  function Decimal(n: nat): (r: string)
    ensures |r| >= 1 && AllDigits(r)
    ensures r[0] == '0' ==> n == 0
  {
    if n < 10 then [DigitChar(n)] else Decimal(n / 10) + [DigitChar(n % 10)]
  }

  /** The value of a string of decimal digits. */
  function DigitsValue(s: string): nat
    requires AllDigits(s)
  {
    if s == [] then 0
    else DigitsValue(s[..|s| - 1]) * 10 + (s[|s| - 1] as int - 48)
  }

  /** Reading back the decimal text of n gives n. */
  lemma {:induction false} DecimalRoundTrip(n: nat)
    ensures DigitsValue(Decimal(n)) == n
  {
    if n >= 10 {
      var r := Decimal(n);
      assert r[..|r| - 1] == Decimal(n / 10);
      DecimalRoundTrip(n / 10);
    }
  }

  /** The id `chat-n`: it starts with `chat-`, and its number reads back as n. */
  function ChatId(n: nat): (id: string)
    ensures |id| > |Prefix| && id[..|Prefix|] == Prefix
    ensures ChatNumber(id) == n
  {
    var id := Prefix + Decimal(n);
    assert id[..|Prefix|] == Prefix;
    assert id[|Prefix|..] == Decimal(n);
    DecimalRoundTrip(n);
    id
  }

  /** The number of an id of the form `chat-<digits>`, or -1 for any other string. */
  function ChatNumber(id: string): int {
    if |id| > |Prefix| && id[..|Prefix|] == Prefix && AllDigits(id[|Prefix|..])
    then DigitsValue(id[|Prefix|..])
    else -1
  }

  /** Distinct numbers give distinct ids. */
  lemma ChatIdInjective(a: nat, b: nat)
    ensures ChatId(a) == ChatId(b) <==> a == b
  {
    assert ChatNumber(ChatId(a)) == a && ChatNumber(ChatId(b)) == b;
  }

  /**
   * The id `create_new_session` builds when the store holds `count` sessions:
   * `chat-` followed by the decimal of count + 1.
   */
  function NewId(count: nat): (id: string)
    ensures |id| > |Prefix| && id[..|Prefix|] == Prefix
    ensures ChatNumber(id) == count + 1
  {
    ChatId(count + 1)
  }

  /**
   * An id `chat-N` not among `taken`: N starts at |taken| + 1, as in the
   * source, and is increased while the id is in use.
   */
  method FreshSessionId(taken: set<string>) returns (id: string, n: nat)
    ensures id == ChatId(n) && id !in taken
    ensures n >= |taken| + 1
    ensures NewId(|taken|) !in taken ==> id == NewId(|taken|)
  {
    n := |taken| + 1;
    ghost var seen: set<string> := {};
    while ChatId(n) in taken
      invariant n >= |taken| + 1
      invariant n > |taken| + 1 ==> NewId(|taken|) in taken
      invariant seen <= taken
      invariant forall x :: x in seen ==> ChatNumber(x) < n
      decreases taken - seen
    {
      assert ChatNumber(ChatId(n)) == n;
      seen := seen + {ChatId(n)};
      n := n + 1;
    }
    id := ChatId(n);
  }
}
