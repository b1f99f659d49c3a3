// String helpers the call pipeline relies on, and the Option type shared by all modules.
module Text {

  datatype Option<+T> = None | Some(value: T)

  function LowerChar(c: char): char {
    if 'A' <= c <= 'Z' then (c as int + 32) as char else c
  }

  // ASCII lower-casing: every word the engine compares against is ASCII.
  function ToLower(s: string): string {
    seq(|s|, i requires 0 <= i < |s| => LowerChar(s[i]))
  }

  function TrimPrefix(s: string, prefix: string): string {
    if prefix <= s then s[|prefix|..] else s
  }

  // The engine's own normalisation: strip +91, then 91, then one leading zero.
  function Normalise(num: string): string {
    TrimPrefix(TrimPrefix(TrimPrefix(num, "+91"), "91"), "0")
  }

  function DigitsOf(s: string): string {
    if s == "" then ""
    else (if '0' <= s[0] <= '9' then [s[0]] else "") + DigitsOf(s[1..])
  }

  // The canonical 11-digit form used by the reprocess filter.
  function NormalizePhone(s: string): string {
    var digits := DigitsOf(s);
    if |digits| == 10 then "0" + digits
    else if |digits| == 12 && "91" <= digits then "0" + digits[2..]
    else if |digits| == 13 && "091" <= digits then "0" + digits[3..]
    else digits
  }

  // ---- Spellings of one subscriber number ----

  predicate IsDigits(s: string) {
    forall c :: c in s ==> '0' <= c <= '9'
  }

  // The national number as it is dialled, with a trunk zero and with the country code.
  function Spellings(n: string): seq<string> {
    [n, "0" + n, "91" + n, "+91" + n]
  }

  // The engine takes all spellings of a number for the same one unless the number itself
  // starts with 91; then the bare spelling loses two digits that the trunk spelling keeps.
  lemma EngineSpellings(n: string)
    requires n != "" && IsDigits(n) && n[0] != '0'
    ensures (forall s :: s in Spellings(n) ==> Normalise(s) == Normalise(n)) <==> !("91" <= n)
  {
    TrimPrefixes(n);
    assert n in Spellings(n) && "0" + n in Spellings(n);
  }

  lemma TrimPrefixes(n: string)
    requires n != "" && IsDigits(n) && n[0] != '0'
    ensures Normalise("0" + n) == n == Normalise("91" + n)
    ensures !("91" <= n) ==> Normalise(n) == n == Normalise("+91" + n)
    ensures "91" <= n ==> Normalise(n) != n
  {
    assert n[0] in n;
    TrimOwnPrefix("0", n);
    TrimOwnPrefix("91", n);
    TrimOwnPrefix("+91", n);
    assert !("+91" <= n) && !("+91" <= "0" + n) && !("91" <= "0" + n) && !("+91" <= "91" + n) && !("0" <= n);
  }

  // An optional +91, then an optional 91, then an optional 0 come off, each once.
  lemma NormaliseTakesOffPrefixes(a: string, b: string, c: string, rest: string)
    requires a in {"", "+91"} && b in {"", "91"} && c in {"", "0"}
    requires a == "" ==> !("+91" <= b + c + rest)
    requires b == "" ==> !("91" <= c + rest)
    requires c == "" ==> !("0" <= rest)
    ensures Normalise(a + b + c + rest) == rest
  {
    hide TrimPrefix;
    assert a + b + c + rest == a + (b + c + rest) && b + c + rest == b + (c + rest);
    TrimOptional("+91", a, b + c + rest);
    TrimOptional("91", b, c + rest);
    TrimOptional("0", c, rest);
  }

  lemma TrimOptional(prefix: string, p: string, rest: string)
    requires p == prefix || (p == "" && !(prefix <= rest))
    ensures TrimPrefix(p + rest, prefix) == rest
  {
    if p == prefix {
      TrimOwnPrefix(prefix, rest);
    } else {
      assert p + rest == rest;
    }
  }

  lemma TrimOwnPrefix(prefix: string, rest: string)
    ensures TrimPrefix(prefix + rest, prefix) == rest
  {
    assert (prefix + rest)[|prefix|..] == rest;
  }

  lemma {:induction false} DigitsOfConcat(a: string, b: string)
    ensures DigitsOf(a + b) == DigitsOf(a) + DigitsOf(b)
  {
    if a == "" {
      assert a + b == b;
    } else {
      hide DigitsOf;
      DigitsOfConcat(a[1..], b);
      assert a == [a[0]] + a[1..] && a + b == [a[0]] + (a[1..] + b);
      DigitsOfCons(a[0], a[1..]);
      DigitsOfCons(a[0], a[1..] + b);
    }
  }

  lemma DigitsOfCons(c: char, s: string)
    ensures DigitsOf([c] + s) == (if '0' <= c <= '9' then [c] else "") + DigitsOf(s)
  {
    assert ([c] + s)[1..] == s;
  }

  lemma {:induction false} DigitsOfDigits(s: string)
    requires IsDigits(s)
    ensures DigitsOf(s) == s
  {
    if s != "" {
      assert s[0] in s && forall c :: c in s[1..] ==> c in s;
      DigitsOfDigits(s[1..]);
    }
  }

  // The reprocess filter takes all spellings of any ten-digit number for the same one.
  lemma FilterSpellings(n: string)
    requires |n| == 10 && IsDigits(n)
    ensures forall s :: s in Spellings(n) ==> NormalizePhone(s) == "0" + n
  {
    hide DigitsOf;
    DigitsOfSpellings(n);
    assert ("91" + n)[2..] == n;
    assert |"0" + n| == 11 && |"91" + n| == 12;
    assert NormalizePhone(n) == "0" + n;
    assert NormalizePhone("0" + n) == "0" + n;
    assert NormalizePhone("91" + n) == "0" + n;
    assert NormalizePhone("+91" + n) == "0" + n;
  }

  // Ten digits, alone or after 91 or 091, become the last ten of them after a zero; any other
  // number of digits is left as it is.
  lemma CanonicalForm(s: string)
    ensures var d := DigitsOf(s);
      NormalizePhone(s)
      == if |d| == 10 || (|d| == 12 && d[..2] == "91") || (|d| == 13 && d[..3] == "091") then "0" + d[|d| - 10..] else d
    ensures NormalizePhone(s) == "" <==> forall c :: c in s ==> !('0' <= c <= '9')
  {
    NoDigits(s);
    assert DigitsOf(s)[|DigitsOf(s)|..] == "";
  }

  lemma {:induction false} NoDigits(s: string)
    ensures DigitsOf(s) == "" <==> forall c :: c in s ==> !('0' <= c <= '9')
  {
    if s != "" {
      var rest := s[1..];
      NoDigits(rest);
      assert s[0] in s && forall c :: c in s <==> c == s[0] || c in rest;
      assert "" + DigitsOf(rest) == DigitsOf(rest);
    }
  }

  lemma DigitsOfSpellings(n: string)
    requires IsDigits(n)
    ensures DigitsOf(n) == n && DigitsOf("0" + n) == "0" + n && DigitsOf("91" + n) == "91" + n
    ensures DigitsOf("+91" + n) == "91" + n
  {
    hide DigitsOf;
    DigitsOfDigits(n);
    DigitsOfDigits("0" + n);
    DigitsOfDigits("91" + n);
    DigitsOfCons('+', "91" + n);
    assert ['+'] + ("91" + n) == "+91" + n && "" + DigitsOf("91" + n) == DigitsOf("91" + n);
  }

  // ---- Case ----

  // The same letters, capitals aside.
  predicate SameButCase(s: string, t: string) {
    |s| == |t| && forall i :: 0 <= i < |s| ==>
      s[i] == t[i]
      || ('A' <= s[i] <= 'Z' && t[i] as int == s[i] as int + 'a' as int - 'A' as int)
      || ('A' <= t[i] <= 'Z' && s[i] as int == t[i] as int + 'a' as int - 'A' as int)
  }

  // Lower-casing takes two texts to the same one exactly when they differ in capitals only,
  // and leaves no capital.
  lemma LowerCaseIgnoresCapitals(s: string, t: string)
    ensures ToLower(s) == ToLower(t) <==> SameButCase(s, t)
    ensures forall c :: c in ToLower(s) ==> !('A' <= c <= 'Z')
  {
    if SameButCase(s, t) {
      assert forall i :: 0 <= i < |s| ==> ToLower(s)[i] == ToLower(t)[i];
    }
    if ToLower(s) == ToLower(t) {
      assert |ToLower(s)| == |s| && |ToLower(t)| == |t|;
      forall i | 0 <= i < |s| ensures LowerChar(s[i]) == LowerChar(t[i]) {
        assert ToLower(s)[i] == LowerChar(s[i]) && ToLower(t)[i] == LowerChar(t[i]);
      }
    }
  }
}
