/** Strings as the source compares and prints them. */
module Text {

  /** Go's `<` on strings. */
  predicate Less(a: string, b: string) {
    if b == "" then false
    else if a == "" then true
    else a[0] < b[0] || (a[0] == b[0] && Less(a[1..], b[1..]))
  }

  lemma {:induction false} LessIrreflexive(a: string)
    ensures !Less(a, a)
  {
    if a == "" {
    } else {
      LessIrreflexive(a[1..]);
    }
  }

  lemma {:induction false} LessTotal(a: string, b: string)
    ensures a == b || Less(a, b) || Less(b, a)
  {
    if a == "" || b == "" {
    } else {
      LessTotal(a[1..], b[1..]);
      if a[0] == b[0] && a[1..] == b[1..] {
        assert a == [a[0]] + a[1..] && b == [b[0]] + b[1..];
      }
    }
  }

  lemma {:induction false} LessTransitive(a: string, b: string, c: string)
    requires Less(a, b) && Less(b, c)
    ensures Less(a, c)
  {
    if a == "" || a[0] != b[0] || b[0] != c[0] {
    } else {
      LessTransitive(a[1..], b[1..], c[1..]);
    }
  }

  /** The ASCII white space that strings.TrimSpace removes. */
  predicate Space(c: char) {
    c in {' ', '\t', '\n', '\r', '\U{0B}', '\U{0C}'}
  }

  function TrimSpace(s: string): string {
    if s != "" && Space(s[0]) then TrimSpace(s[1..])
    else if s != "" && Space(s[|s| - 1]) then TrimSpace(s[..|s| - 1])
    else s
  }

  predicate Blank(s: string) { TrimSpace(s) == "" }

  function TrimPrefix(s: string, prefix: string): string {
    if prefix <= s then s[|prefix|..] else s
  }

  function Digit(n: nat): char
    requires n < 10
  {
    "0123456789"[n]
  }

  /** strconv.FormatUint(n, 10). */
  function Decimal(n: nat): (s: string)
    ensures s != ""
  {
    if n < 10 then [Digit(n)] else Decimal(n / 10) + [Digit(n % 10)]
  }

  predicate HexText(s: string) {
    |s| % 2 == 0 && forall c :: c in s ==> '0' <= c <= '9' || 'a' <= c <= 'f' || 'A' <= c <= 'F'
  }

  // ---- What these do to a string -------------------------------------------------------------

  /** Where two strings first differ, the one that ends there or has the smaller character comes first. */
  lemma {:induction false} LessMeans(same: string, a: string, b: string)
    requires a == "" || b == "" || a[0] != b[0]
    ensures Less(same + a, same + b) <==> b != "" && (a == "" || a[0] < b[0])
  {
    if same == "" {
      assert same + a == a && same + b == b;
    } else {
      LessMeans(same[1..], a, b);
      assert (same + a)[1..] == same[1..] + a && (same + b)[1..] == same[1..] + b;
    }
  }

  /** White space goes from both ends, and nothing else. */
  lemma {:induction false} TrimSpaceMeans(s: string) returns (before: string, after: string)
    ensures s == before + TrimSpace(s) + after
    ensures forall c :: c in before || c in after ==> c in " \t\n\r\U{0B}\U{0C}"
    ensures var r := TrimSpace(s);
      r != "" ==> r[0] !in " \t\n\r\U{0B}\U{0C}" && r[|r| - 1] !in " \t\n\r\U{0B}\U{0C}"
  {
    if s != "" && Space(s[0]) {
      before, after := TrimSpaceMeans(s[1..]);
      assert s == [s[0]] + s[1..];
      before := [s[0]] + before;
    } else if s != "" && Space(s[|s| - 1]) {
      before, after := TrimSpaceMeans(s[..|s| - 1]);
      assert s == s[..|s| - 1] + [s[|s| - 1]];
      after := after + [s[|s| - 1]];
    } else {
      before, after := "", "";
    }
  }

  /** A prefix goes once, and only from the start. */
  lemma TrimPrefixMeans(s: string, prefix: string)
    ensures TrimPrefix(prefix + s, prefix) == s
    ensures (forall t :: s != prefix + t) ==> TrimPrefix(s, prefix) == s
  {
    if prefix <= s { assert s == prefix + s[|prefix|..]; }
  }

  /** Reading a decimal numeral back. */
  function Value(s: string): int {
    if s == "" then 0 else 10 * Value(s[..|s| - 1]) + (s[|s| - 1] as int - '0' as int)
  }

  lemma {:induction false} DecimalMeans(n: nat)
    ensures Value(Decimal(n)) == n && forall c :: c in Decimal(n) ==> '0' <= c <= '9'
  {
    assert forall d: nat :: d < 10 ==> Digit(d) as int == '0' as int + d;
    if n < 10 {
      assert [Digit(n)][..0] == "";
    } else {
      DecimalMeans(n / 10);
      assert Decimal(n)[..|Decimal(n)| - 1] == Decimal(n / 10);
    }
  }
}
