/** The string operations of the Rust standard library that the handlers rely on. */
module Text {
  import opened Wrappers

  // ── Whitespace and trimming ────────────────────────────────────────────

  /** Unicode White_Space, the class used by `str::trim`. */
  predicate IsWhitespace(c: char) {
    || '\t' <= c <= '\r' || c == ' ' || c == '\U{85}' || c == '\U{A0}' || c == '\U{1680}'
    || '\U{2000}' <= c <= '\U{200A}' || c == '\U{2028}' || c == '\U{2029}' || c == '\U{202F}'
    || c == '\U{205F}' || c == '\U{3000}'
  }

  function TrimStart(s: string): string {
    if s != [] && IsWhitespace(s[0]) then TrimStart(s[1..]) else s
  }

  function TrimEnd(s: string): string {
    if s != [] && IsWhitespace(s[|s| - 1]) then TrimEnd(s[..|s| - 1]) else s
  }

  function Trim(s: string): string {
    TrimEnd(TrimStart(s))
  }

  /** No whitespace at either end. */
  predicate Trimmed(s: string) {
    s != [] ==> !IsWhitespace(s[0]) && !IsWhitespace(s[|s| - 1])
  }

  predicate AllWhitespace(s: string) {
    forall i | 0 <= i < |s| :: IsWhitespace(s[i])
  }

  lemma {:induction false} TrimStartCuts(s: string) returns (cut: string)
    ensures s == cut + TrimStart(s) && AllWhitespace(cut)
    ensures TrimStart(s) != [] ==> !IsWhitespace(TrimStart(s)[0])
  {
    if s != [] && IsWhitespace(s[0]) {
      var rest := TrimStartCuts(s[1..]);
      cut := [s[0]] + rest;
    } else {
      cut := [];
    }
  }

  lemma {:induction false} TrimEndCuts(s: string) returns (cut: string)
    ensures s == TrimEnd(s) + cut && AllWhitespace(cut)
    ensures TrimEnd(s) != [] ==> !IsWhitespace(TrimEnd(s)[|TrimEnd(s)| - 1])
  {
    if s != [] && IsWhitespace(s[|s| - 1]) {
      var rest := TrimEndCuts(s[..|s| - 1]);
      cut := rest + [s[|s| - 1]];
    } else {
      cut := [];
    }
  }

  /** Trimming removes whitespace at the two ends and nothing else. */
  lemma TrimCuts(s: string) returns (front: string, back: string)
    ensures s == front + Trim(s) + back
    ensures AllWhitespace(front) && AllWhitespace(back) && Trimmed(Trim(s))
  {
    front := TrimStartCuts(s);
    back := TrimEndCuts(TrimStart(s));
    if Trim(s) != [] {
      assert Trim(s)[0] == TrimStart(s)[0];
    }
  }

  lemma TrimFixesTrimmed(s: string)
    requires Trimmed(s)
    ensures Trim(s) == s
  {
  }

  lemma {:induction false} TrimStartSkips(front: string, s: string)
    requires AllWhitespace(front)
    ensures TrimStart(front + s) == TrimStart(s)
  {
    if front == [] {
      assert front + s == s;
    } else {
      assert (front + s)[1..] == front[1..] + s;
      TrimStartSkips(front[1..], s);
    }
  }

  lemma {:induction false} TrimEndSkips(s: string, back: string)
    requires AllWhitespace(back)
    ensures TrimEnd(s + back) == TrimEnd(s)
  {
    if back == [] {
      assert s + back == s;
    } else {
      assert (s + back)[..|s + back| - 1] == s + back[..|back| - 1];
      TrimEndSkips(s, back[..|back| - 1]);
    }
  }

  /** The text between the whitespace at the two ends is what trimming gives. */
  lemma TrimGivesText(front: string, text: string, back: string)
    requires AllWhitespace(front) && AllWhitespace(back) && Trimmed(text)
    ensures Trim(front + text + back) == text
  {
    assert front + text + back == front + (text + back);
    TrimStartSkips(front, text + back);
    if text == [] {
      assert text + back == back && back + [] == back;
      TrimStartSkips(back, []);
    } else {
      assert (text + back)[0] == text[0];
      TrimEndSkips(text, back);
    }
  }

  // ── Splitting and joining ──────────────────────────────────────────────

  /** `str::split(c)`: always at least one part. */
  function Split(s: string, c: char): (parts: seq<string>)
    ensures |parts| >= 1
  {
    if s == [] then [[]]
    else
      var rest := Split(s[1..], c);
      if s[0] == c then [[]] + rest else [[s[0]] + rest[0]] + rest[1..]
  }

  function Join(parts: seq<string>, sep: string): string {
    if parts == [] then []
    else if |parts| == 1 then parts[0]
    else parts[0] + sep + Join(parts[1..], sep)
  }

  lemma {:induction false} SplitRemovesSeparator(s: string, c: char)
    ensures forall i | 0 <= i < |Split(s, c)| :: c !in Split(s, c)[i]
  {
    if s != [] {
      SplitRemovesSeparator(s[1..], c);
    }
  }

  /** Every character but the separators is in some part. */
  lemma {:induction false} SplitKeeps(s: string, c: char, k: nat) returns (i: nat)
    requires k < |s| && s[k] != c
    ensures i < |Split(s, c)| && s[k] in Split(s, c)[i]
  {
    if k == 0 {
      i := 0;
    } else {
      var j := SplitKeeps(s[1..], c, k - 1);
      i := if s[0] == c then j + 1 else j;
    }
  }

  lemma {:induction false} SplitWhole(s: string, c: char)
    requires c !in s
    ensures Split(s, c) == [s]
  {
    if s != [] {
      SplitWhole(s[1..], c);
      assert [s[0]] + s[1..] == s;
    }
  }

  lemma {:induction false} SplitAtSeparator(a: string, c: char, b: string)
    ensures Split(a + [c] + b, c) == Split(a, c) + Split(b, c)
  {
    var whole := a + [c] + b;
    if a == [] {
      assert whole[1..] == b;
    } else {
      assert whole[1..] == a[1..] + [c] + b;
      SplitAtSeparator(a[1..], c, b);
    }
  }

  lemma {:induction false} SplitJoin(parts: seq<string>, c: char)
    requires parts != []
    requires forall i | 0 <= i < |parts| :: c !in parts[i]
    ensures Split(Join(parts, [c]), c) == parts
  {
    SplitWhole(parts[0], c);
    if |parts| > 1 {
      SplitJoin(parts[1..], c);
      SplitAtSeparator(parts[0], c, Join(parts[1..], [c]));
      assert [parts[0]] + parts[1..] == parts;
    }
  }

  /** `str::split_once(c)`: around the first separator. */
  function SplitOnce(s: string, c: char): (r: Option<(string, string)>)
    ensures r.None? <==> c !in s
    ensures r.Some? ==> c !in r.value.0 && s == r.value.0 + [c] + r.value.1
  {
    if s == [] then None
    else if s[0] == c then Some(([], s[1..]))
    else
      match SplitOnce(s[1..], c)
      case None => None
      case Some((a, b)) => Some(([s[0]] + a, b))
  }

  lemma {:induction false} SplitOnceAtFirst(a: string, c: char, b: string)
    requires c !in a
    ensures SplitOnce(a + [c] + b, c) == Some((a, b))
  {
    var whole := a + [c] + b;
    if a == [] {
      assert whole[1..] == b;
    } else {
      assert whole[1..] == a[1..] + [c] + b;
      SplitOnceAtFirst(a[1..], c, b);
      assert [a[0]] + a[1..] == a;
    }
  }

  // ── Lexicographic order ────────────────────────────────────────────────

  /** `str::cmp` is not `Greater`. */
  predicate StrLe(a: string, b: string) {
    a == [] || (b != [] && (a[0] < b[0] || (a[0] == b[0] && StrLe(a[1..], b[1..]))))
  }

  lemma {:induction false} StrLeTotal(a: string, b: string)
    ensures StrLe(a, b) || StrLe(b, a)
  {
    if a != [] && b != [] {
      StrLeTotal(a[1..], b[1..]);
    }
  }

  lemma {:induction false} StrLeTransitive(a: string, b: string, c: string)
    requires StrLe(a, b) && StrLe(b, c)
    ensures StrLe(a, c)
  {
    if a != [] && a[0] == b[0] == c[0] {
      StrLeTransitive(a[1..], b[1..], c[1..]);
    }
  }

  // ── Decimal timestamps ─────────────────────────────────────────────────

  predicate IsDecimal(s: string) {
    forall i | 0 <= i < |s| :: '0' <= s[i] <= '9'
  }

  function Pow10(n: nat): (p: nat)
    ensures p >= 1
  {
    if n == 0 then 1 else 10 * Pow10(n - 1)
  }

  function Digit(c: char): (d: nat)
    requires '0' <= c <= '9'
    ensures d <= 9
  {
    (c as int) - ('0' as int)
  }

  /** The number a decimal string denotes, most significant digit first. */
  function DecimalValue(s: string): nat
    requires IsDecimal(s)
  {
    if s == [] then 0
    else Digit(s[0]) * Pow10(|s| - 1) + DecimalValue(s[1..])
  }

  lemma ScaleDigit(d: nat, p: nat)
    requires d <= 9
    ensures d * p <= 9 * p
  {
  }

  lemma {:induction false} DecimalValueBound(s: string)
    requires IsDecimal(s)
    ensures DecimalValue(s) < Pow10(|s|)
  {
    if s != [] {
      DecimalValueBound(s[1..]);
      ScaleDigit(Digit(s[0]), Pow10(|s| - 1));
    }
  }

  lemma LeadingDigitDecides(da: nat, db: nat, p: nat, ra: nat, rb: nat)
    requires da < db && ra < p
    ensures da * p + ra < db * p + rb
  {
    assert (da + 1) * p <= db * p;
  }

  /** On decimal strings of one length, text order is numeric order. */
  lemma {:induction false} TextOrderIsNumericOrder(a: string, b: string)
    requires IsDecimal(a) && IsDecimal(b) && |a| == |b|
    ensures StrLe(a, b) <==> DecimalValue(a) <= DecimalValue(b)
  {
    if a != [] {
      TextOrderIsNumericOrder(a[1..], b[1..]);
      DecimalValueBound(a[1..]);
      DecimalValueBound(b[1..]);
      var p := Pow10(|a| - 1);
      var ra, rb := DecimalValue(a[1..]), DecimalValue(b[1..]);
      if a[0] < b[0] {
        LeadingDigitDecides(Digit(a[0]), Digit(b[0]), p, ra, rb);
      } else if b[0] < a[0] {
        LeadingDigitDecides(Digit(b[0]), Digit(a[0]), p, rb, ra);
      }
    }
  }
}
