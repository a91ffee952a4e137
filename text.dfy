/** String operations of the JavaScript runtime that the rule code relies on:
    `toLowerCase` (ASCII letters only), `trim`, `includes`, `startsWith`,
    `split(',')`, `join`, number-to-text and `parseInt`. */
module Strings {

  import opened Wrappers

  function LowerChar(c: char): char {
    if 'A' <= c <= 'Z' then (c as int + 32) as char else c
  }

  /** `s.toLowerCase()` on ASCII letters; other characters are kept. */
  function Lower(s: string): (r: string)
    ensures |r| == |s|
    ensures forall i :: 0 <= i < |s| ==> r[i] == LowerChar(s[i])
  {
    seq(|s|, i requires 0 <= i < |s| => LowerChar(s[i]))
  }

  lemma LowerAppend(a: string, b: string)
    ensures Lower(a + b) == Lower(a) + Lower(b)
  {
    assert forall i :: 0 <= i < |a + b| ==> Lower(a + b)[i] == (Lower(a) + Lower(b))[i];
  }

  /** Lower-casing is idempotent. */
  lemma LowerIdempotent(s: string)
    ensures Lower(Lower(s)) == Lower(s)
  {
  }

  /** The characters `String.prototype.trim` removes: WhiteSpace and LineTerminator of ECMA-262. */
  predicate IsWhite(c: char) {
    var n := c as int;
    n == 0x09 || n == 0x0A || n == 0x0B || n == 0x0C || n == 0x0D || n == 0x20 ||
    n == 0xA0 || n == 0x1680 || (0x2000 <= n <= 0x200A) || n == 0x2028 || n == 0x2029 ||
    n == 0x202F || n == 0x205F || n == 0x3000 || n == 0xFEFF
  }

  function TrimStart(s: string): (r: string)
    ensures |r| <= |s|
    ensures forall c :: c in r ==> c in s
    ensures r == [] || !IsWhite(r[0])
    decreases |s|
  {
    if s != [] && IsWhite(s[0]) then TrimStart(s[1..]) else s
  }

  function TrimEnd(s: string): (r: string)
    ensures r <= s
    ensures forall c :: c in r ==> c in s
    ensures r == [] || !IsWhite(r[|r| - 1])
    decreases |s|
  {
    if s != [] && IsWhite(s[|s| - 1]) then TrimEnd(s[..|s| - 1]) else s
  }

  /** Neither end of `s` is a white-space character. */
  predicate IsTrimmed(s: string) {
    s == [] || (!IsWhite(s[0]) && !IsWhite(s[|s| - 1]))
  }

  /** `s.trim()`: `s` with the white space at both ends cut off, and only that. */
  function Trim(s: string): (r: string)
    ensures |r| <= |s| && IsTrimmed(r)
    ensures forall c :: c in r ==> c in s
  {
    var t := TrimStart(s);
    var r := TrimEnd(t);
    assert r == [] || r[0] == t[0];
    r
  }

  /** `TrimStart` cuts off only white space, from the front. */
  lemma {:induction false} TrimStartCuts(s: string)
    ensures var r := TrimStart(s);
      r == s[|s| - |r|..] && forall k :: 0 <= k < |s| - |r| ==> IsWhite(s[k])
    decreases |s|
  {
    if s != [] && IsWhite(s[0]) {
      TrimStartCuts(s[1..]);
      assert forall k :: 1 <= k < |s| ==> s[k] == s[1..][k - 1];
    }
  }

  /** `TrimEnd` cuts off only white space, from the back. */
  lemma {:induction false} TrimEndCuts(s: string)
    ensures var r := TrimEnd(s);
      r == s[..|r|] && forall k :: |r| <= k < |s| ==> IsWhite(s[k])
    decreases |s|
  {
    if s != [] && IsWhite(s[|s| - 1]) {
      TrimEndCuts(s[..|s| - 1]);
    }
  }

  /** `trim` cuts off white space at both ends and nothing else: the result is the piece of
      `s` between a white prefix and a white suffix. */
  lemma TrimCuts(s: string)
    ensures exists i :: TrimmedAt(s, Trim(s), i)
  {
    var t := TrimStart(s);
    var r := TrimEnd(t);
    TrimStartCuts(s);
    TrimEndCuts(t);
    var i := |s| - |t|;
    assert r == s[i..i + |r|] by {
      assert t == s[i..] && r == t[..|r|];
    }
    forall k | i + |r| <= k < |s| ensures IsWhite(s[k]) {
      assert s[k] == t[k - i];
    }
    assert TrimmedAt(s, Trim(s), i);
  }

  /** `r` is the piece of `s` starting at `i`, and everything of `s` around it is white. */
  predicate TrimmedAt(s: string, r: string, i: int) {
    0 <= i <= |s| - |r| && r == s[i..i + |r|]
    && (forall k :: 0 <= k < i ==> IsWhite(s[k]))
    && (forall k :: i + |r| <= k < |s| ==> IsWhite(s[k]))
  }

  /** `sub` sits in `s` starting at index `i`. */
  predicate OccursAt(s: string, sub: string, i: int) {
    0 <= i <= |s| - |sub| && s[i..i + |sub|] == sub
  }

  lemma {:induction false} TrimEndKeepsFirst(s: string)
    requires s != [] && !IsWhite(s[0])
    ensures TrimEnd(s) != []
    decreases |s|
  {
    if IsWhite(s[|s| - 1]) {
      TrimEndKeepsFirst(s[..|s| - 1]);
    }
  }

  /** A string that is already trimmed is its own trim. */
  lemma {:induction false} TrimOfTrimmed(s: string)
    requires IsTrimmed(s)
    ensures Trim(s) == s
  {
  }

  /** A trimmed string behind one space trims back to itself. */
  lemma {:induction false} TrimAfterSpace(s: string)
    requires IsTrimmed(s)
    ensures Trim(" " + s) == s
  {
    var t := " " + s;
    assert t[0] == ' ' && t[1..] == s;
    assert TrimStart(t) == TrimStart(s);
    assert TrimStart(s) == s;
    assert TrimEnd(s) == s;
  }

  /** A non-empty trim shows the string was not blank. */
  lemma TrimEmptyIffBlank(s: string)
    ensures Trim(s) == "" <==> forall i :: 0 <= i < |s| ==> IsWhite(s[i])
    decreases |s|
  {
    if s != [] && IsWhite(s[0]) {
      TrimEmptyIffBlank(s[1..]);
      assert forall i :: 1 <= i < |s| ==> s[i] == s[1..][i - 1];
    } else if s != [] {
      assert TrimStart(s) == s;
      TrimEndKeepsFirst(s);
    }
  }

  /** `s.includes(sub)`. */
  predicate Contains(s: string, sub: string)
    decreases |s|
  {
    sub <= s || (s != [] && Contains(s[1..], sub))
  }

  /** Only text at least as long as `sub` can include it. */
  lemma {:induction false} ContainsLength(s: string, sub: string)
    ensures Contains(s, sub) ==> |sub| <= |s|
    decreases |s|
  {
    if s != [] {
      ContainsLength(s[1..], sub);
    }
  }

  /** `s.includes(sub)` holds exactly when `sub` occurs at some position of `s`. */
  lemma {:induction false} ContainsAt(s: string, sub: string)
    ensures Contains(s, sub) <==> exists i :: OccursAt(s, sub, i)
    decreases |s|
  {
    if s != [] {
      ContainsAt(s[1..], sub);
      if exists i :: OccursAt(s, sub, i) {
        var i :| OccursAt(s, sub, i);
        if i > 0 {
          assert OccursAt(s[1..], sub, i - 1);
        } else {
          assert sub <= s;
        }
      }
      if exists i :: OccursAt(s[1..], sub, i) {
        var i :| OccursAt(s[1..], sub, i);
        assert OccursAt(s, sub, i + 1);
      }
      if sub <= s {
        assert OccursAt(s, sub, 0);
      }
    } else {
      if sub <= s {
        assert OccursAt(s, sub, 0);
      }
      if exists i :: OccursAt(s, sub, i) {
        var i :| OccursAt(s, sub, i);
        assert sub == [];
      }
    }
  }

  /** `s.endsWith(t)`. */
  predicate EndsWith(s: string, t: string) {
    |t| <= |s| && s[|s| - |t|..] == t
  }

  lemma EndsWithConcat(a: string, b: string)
    ensures EndsWith(a + b, b)
  {
    assert (a + b)[|a|..] == b;
  }

  /** A prefix is contained. */
  lemma PrefixContained(s: string, sub: string)
    requires sub <= s
    ensures Contains(s, sub)
  {
  }

  /** Everything contains the empty string. */
  lemma ContainsEmpty(s: string)
    ensures Contains(s, "")
  {
  }

  /** `s.split(sep)`: the pieces between separators, always at least one. */
  function Split(s: string, sep: char): (r: seq<string>)
    ensures |r| >= 1
    ensures forall i :: 0 <= i < |r| ==> sep !in r[i]
    decreases |s|
  {
    if s == [] then [""]
    else if s[0] == sep then [""] + Split(s[1..], sep)
    else
      var t := Split(s[1..], sep);
      [[s[0]] + t[0]] + t[1..]
  }

  /** A string without the separator is one piece. */
  lemma {:induction false} SplitNoSeparator(s: string, sep: char)
    requires sep !in s
    ensures Split(s, sep) == [s]
    decreases |s|
  {
    if s != [] {
      SplitNoSeparator(s[1..], sep);
      assert [s[0]] + s[1..] == s;
    }
  }

  /** The first separator ends the first piece. */
  lemma {:induction false} SplitAtSeparator(a: string, b: string, sep: char)
    requires sep !in a
    ensures Split(a + [sep] + b, sep) == [a] + Split(b, sep)
    decreases |a|
  {
    if a == [] {
      assert a + [sep] + b == [sep] + b;
      assert ([sep] + b)[1..] == b;
    } else {
      assert (a + [sep] + b)[1..] == a[1..] + [sep] + b;
      SplitAtSeparator(a[1..], b, sep);
      assert [a[0]] + a[1..] == a;
    }
  }

  /** `xs.join(sep)`. */
  function Join(xs: seq<string>, sep: string): string
    decreases |xs|
  {
    if xs == [] then ""
    else if |xs| == 1 then xs[0]
    else xs[0] + sep + Join(xs[1..], sep)
  }

  predicate IsDigit(c: char) {
    '0' <= c <= '9'
  }

  function DigitChar(d: nat): (c: char)
    requires d < 10
    ensures IsDigit(c)
  {
    ('0' as int + d) as char
  }

  function DigitValue(c: char): nat
    requires IsDigit(c)
  {
    c as int - '0' as int
  }

  /** Decimal digits of a natural number, most significant first, no leading zeros. */
  function NatText(n: nat): (r: string)
    ensures |r| >= 1
    ensures forall i :: 0 <= i < |r| ==> IsDigit(r[i])
    ensures r[0] != '0' || n == 0
    decreases n
  {
    if n < 10 then [DigitChar(n)] else NatText(n / 10) + [DigitChar(n % 10)]
  }

  /** How JavaScript writes an integer-valued number (`${n}`, below 10^21). */
  function IntText(n: int): string {
    if n < 0 then "-" + NatText(-n) else NatText(n)
  }

  predicate AllDigits(s: string) {
    forall i :: 0 <= i < |s| ==> IsDigit(s[i])
  }

  /** The value of a string of decimal digits. */
  function DigitsValue(s: string): nat
    requires AllDigits(s)
    decreases |s|
  {
    if s == [] then 0 else DigitsValue(s[..|s| - 1]) * 10 + DigitValue(s[|s| - 1])
  }

  /** Reading back the decimal text of `n` gives `n`. */
  lemma {:induction false} NatTextValue(n: nat)
    ensures DigitsValue(NatText(n)) == n
    decreases n
  {
    if n >= 10 {
      NatTextValue(n / 10);
      var t := NatText(n / 10) + [DigitChar(n % 10)];
      assert t[..|t| - 1] == NatText(n / 10);
    }
  }

  predicate IsHexDigit(c: char) {
    IsDigit(c) || 'a' <= c <= 'f' || 'A' <= c <= 'F'
  }

  function HexValue(c: char): nat
    requires IsHexDigit(c)
  {
    if IsDigit(c) then DigitValue(c)
    else if 'a' <= c <= 'f' then c as int - 'a' as int + 10
    else c as int - 'A' as int + 10
  }

  /** The longest prefix of `s` whose characters satisfy `ok`. */
  function Run(s: string, ok: char -> bool): (r: string)
    ensures r <= s
    ensures forall c :: c in r ==> c in s
    ensures forall i :: 0 <= i < |r| ==> ok(r[i])
    ensures |r| < |s| ==> !ok(s[|r|])
    decreases |s|
  {
    if s != [] && ok(s[0]) then [s[0]] + Run(s[1..], ok) else []
  }

  /** The value of a string of digits in base `radix` (10 or 16). */
  function RadixValue(s: string, hex: bool): nat
    requires forall i :: 0 <= i < |s| ==> (if hex then IsHexDigit(s[i]) else IsDigit(s[i]))
    decreases |s|
  {
    if s == [] then 0
    else
      var c := s[|s| - 1];
      RadixValue(s[..|s| - 1], hex) * (if hex then 16 else 10) + (if hex then HexValue(c) else DigitValue(c))
  }

  /** The part of a number's text after its optional sign: the sign and the rest. */
  function SignOf(s: string): (r: (int, string))
    ensures r.0 == 1 || r.0 == -1
  {
    if s != [] && s[0] == '-' then (-1, s[1..])
    else if s != [] && s[0] == '+' then (1, s[1..])
    else (1, s)
  }

  /** `parseInt(s)` with no radix: leading white space, an optional sign, a `0x` prefix
      selecting base 16, then the longest run of digits; `None` stands for NaN. */
  function ParseInt(s: string): (r: Option<int>)
    ensures TrimStart(s) == [] ==> r.None?
  {
    var signed := SignOf(TrimStart(s));
    var sign := signed.0;
    var body := signed.1;
    var hex := |body| >= 2 && body[0] == '0' && (body[1] == 'x' || body[1] == 'X');
    var digits := if hex then Run(body[2..], IsHexDigit) else Run(body, IsDigit);
    if digits == [] then None
    else Some(sign * RadixValue(digits, hex))
  }

  /** `parseFloat(s)` on integer-valued text: leading white space, an optional sign and the
      longest run of decimal digits (a fraction or exponent is not read); `None` is NaN. */
  function ParseDecimal(s: string): (r: Option<int>)
    ensures TrimStart(s) == [] ==> r.None?
  {
    var signed := SignOf(TrimStart(s));
    var sign := signed.0;
    var body := signed.1;
    var digits := Run(body, IsDigit);
    if digits == [] then None else Some(sign * DigitsValue(digits))
  }

  /** `Number(s)` on integer-valued text: the white space around it is dropped, blank text is
      0, and otherwise an optional sign followed by decimal digits only; anything else is
      NaN (`None`). */
  function ToNumber(s: string): Option<int>
  {
    var t := Trim(s);
    if t == "" then Some(0)
    else
      var signed := SignOf(t);
      if signed.1 != [] && AllDigits(signed.1) then Some(signed.0 * DigitsValue(signed.1))
      else None
  }

  /** `Number` reads back the text JavaScript writes for an integer. */
  lemma {:induction false} ToNumberOfIntText(n: int)
    ensures ToNumber(IntText(n)) == Some(n)
  {
    var t := IntText(n);
    var m: nat := if n < 0 then -n else n;
    assert IsDigit(t[|t| - 1]);
    assert !IsWhite(t[0]);
    TrimOfTrimmed(t);
    UnsignedText(n);
    assert TrimStart(t) == t;
    NatTextValue(m);
    if n < 0 {
      assert (-1) * m == n;
    }
  }

  /** Blank text counts as 0, and text with a letter after its sign is NaN. */
  lemma ToNumberBlankOrLetter(s: string)
    ensures (forall i :: 0 <= i < |s| ==> IsWhite(s[i])) ==> ToNumber(s) == Some(0)
    ensures s != [] && 'a' <= s[0] <= 'z' ==> ToNumber(s) == None
  {
    TrimEmptyIffBlank(s);
    if s != [] && 'a' <= s[0] <= 'z' {
      assert TrimStart(s) == s;
      TrimEndKeepsFirst(s);
    }
  }

  lemma RadixValueDecimal(s: string)
    requires AllDigits(s)
    ensures RadixValue(s, false) == DigitsValue(s)
    decreases |s|
  {
    if s != [] {
      RadixValueDecimal(s[..|s| - 1]);
    }
  }

  /** The unsigned part of an integer's text, once the sign is taken off. */
  lemma {:induction false} UnsignedText(n: int)
    ensures SignOf(TrimStart(IntText(n))) == (if n < 0 then -1 else 1, NatText(if n < 0 then -n else n))
  {
    var t := IntText(n);
    assert !IsWhite(t[0]);
    assert TrimStart(t) == t;
    if n < 0 {
      assert t[1..] == NatText(-n);
    }
  }

  /** `parseInt` reads back the text JavaScript writes for an integer. */
  lemma {:induction false} ParseIntOfIntText(n: int)
    ensures ParseInt(IntText(n)) == Some(n)
  {
    var m: nat := if n < 0 then -n else n;
    UnsignedText(n);
    ParseIntDecimalBody(IntText(n));
    NatTextValue(m);
    if n < 0 {
      assert (-1) * m == n;
    }
  }

  /** Once the sign is off, a body made only of decimal digits is read in base 10 as a whole:
      a digit is never the `x` of a hex prefix. */
  lemma ParseIntDecimalBody(s: string)
    requires SignOf(TrimStart(s)).1 != [] && AllDigits(SignOf(TrimStart(s)).1)
    ensures ParseInt(s) == Some(SignOf(TrimStart(s)).0 * DigitsValue(SignOf(TrimStart(s)).1))
  {
    var body := SignOf(TrimStart(s)).1;
    RunAll(body, IsDigit);
    RadixValueDecimal(body);
  }

  /** `parseFloat` reads back the text JavaScript writes for an integer. */
  lemma {:induction false} ParseDecimalOfIntText(n: int)
    ensures ParseDecimal(IntText(n)) == Some(n)
  {
    var m: nat := if n < 0 then -n else n;
    UnsignedText(n);
    RunAll(NatText(m), IsDigit);
    NatTextValue(m);
  }

  lemma {:induction false} RunAll(s: string, ok: char -> bool)
    requires forall i :: 0 <= i < |s| ==> ok(s[i])
    ensures Run(s, ok) == s
    decreases |s|
  {
    if s != [] {
      RunAll(s[1..], ok);
      assert [s[0]] + s[1..] == s;
    }
  }

  /** The trimmed, non-empty pieces, in order (`map(s => s.trim()).filter(Boolean)`). */
  function CleanPieces(pieces: seq<string>): (r: seq<string>)
    ensures |r| <= |pieces|
    ensures forall i :: 0 <= i < |r| ==> r[i] != "" && IsTrimmed(r[i])
    decreases |pieces|
  {
    if pieces == [] then []
    else
      var t := Trim(pieces[0]);
      (if t == "" then [] else [t]) + CleanPieces(pieces[1..])
  }

  lemma {:induction false} CleanPiecesAppend(a: seq<string>, b: seq<string>)
    ensures CleanPieces(a + b) == CleanPieces(a) + CleanPieces(b)
    decreases |a|
  {
    if a == [] {
      assert a + b == b;
    } else {
      assert (a + b)[1..] == a[1..] + b;
      CleanPiecesAppend(a[1..], b);
    }
  }

  /** Every cleaned piece is the trim of some piece. */
  lemma {:induction false} CleanPiecesFrom(pieces: seq<string>, x: string)
    requires x in CleanPieces(pieces)
    ensures exists i :: 0 <= i < |pieces| && x == Trim(pieces[i])
    decreases |pieces|
  {
    var t := Trim(pieces[0]);
    if x != t {
      CleanPiecesFrom(pieces[1..], x);
      var i :| 0 <= i < |pieces[1..]| && x == Trim(pieces[1..][i]);
      assert x == Trim(pieces[i + 1]);
    }
  }

  /** `text.split(',').map(s => s.trim()).filter(Boolean)`: the skills typed as comma-separated text. */
  function SkillsFromText(text: string): (r: seq<string>)
    ensures forall i :: 0 <= i < |r| ==> r[i] != "" && IsTrimmed(r[i])
  {
    CleanPieces(Split(text, ','))
  }

  /** A skill list that the comma-separated text can carry unchanged. */
  predicate IsCleanSkillList(xs: seq<string>) {
    forall i :: 0 <= i < |xs| ==> xs[i] != "" && IsTrimmed(xs[i]) && ',' !in xs[i]
  }

  /** Text without a comma yields its trimmed self, or nothing when blank. */
  lemma {:induction false} SkillsOfOnePiece(piece: string)
    requires ',' !in piece
    ensures SkillsFromText(piece) == if Trim(piece) == "" then [] else [Trim(piece)]
  {
    SplitNoSeparator(piece, ',');
  }

  /** The first comma divides the skills between what precedes and what follows it. */
  lemma {:induction false} SkillsAtComma(head: string, tail: string)
    requires ',' !in head
    ensures SkillsFromText(head + [','] + tail) == SkillsFromText(head) + SkillsFromText(tail)
  {
    SplitAtSeparator(head, tail, ',');
    SplitNoSeparator(head, ',');
    CleanPiecesAppend([head], Split(tail, ','));
  }

  /** One skill behind the padding is a single piece that trims back to the skill. */
  lemma {:induction false} PaddedSkill(pad: string, x: string)
    requires pad == "" || pad == " "
    requires IsTrimmed(x) && ',' !in x
    ensures ',' !in pad + x
    ensures Trim(pad + x) == x
  {
    if pad == "" {
      assert pad + x == x;
      TrimOfTrimmed(x);
    } else {
      TrimAfterSpace(x);
    }
  }

  /** The `', '`-joined text of two or more skills, cut at its first comma. */
  lemma {:induction false} JoinAtFirst(xs: seq<string>, pad: string)
    requires |xs| >= 2
    ensures pad + Join(xs, ", ") == (pad + xs[0]) + [','] + (" " + Join(xs[1..], ", "))
  {
    var rest := Join(xs[1..], ", ");
    assert Join(xs, ", ") == xs[0] + ", " + rest;
    assert ", " == [','] + " ";
    assert xs[0] + ", " + rest == xs[0] + [','] + (" " + rest);
  }

  /** Splitting the `', '`-joined text of a clean skill list, behind at most one space. */
  lemma {:induction false} SkillsRoundTripPadded(xs: seq<string>, pad: string)
    requires IsCleanSkillList(xs)
    requires pad == "" || pad == " "
    ensures SkillsFromText(pad + Join(xs, ", ")) == xs
    decreases |xs|
  {
    if xs == [] {
      assert pad + Join(xs, ", ") == pad;
      SkillsOfOnePiece(pad);
    } else if |xs| == 1 {
      PaddedSkill(pad, xs[0]);
      SkillsOfOnePiece(pad + xs[0]);
      assert pad + Join(xs, ", ") == pad + xs[0];
    } else {
      assert IsCleanSkillList(xs[1..]);
      SkillsRoundTripPadded(xs[1..], " ");
      SkillsAfterFirst(xs, pad);
    }
  }

  /** When the skills after the first read back from their text, so do all of them. */
  lemma SkillsAfterFirst(xs: seq<string>, pad: string)
    requires |xs| >= 2 && IsCleanSkillList(xs)
    requires pad == "" || pad == " "
    requires SkillsFromText(" " + Join(xs[1..], ", ")) == xs[1..]
    ensures SkillsFromText(pad + Join(xs, ", ")) == xs
  {
    var head := pad + xs[0];
    PaddedSkill(pad, xs[0]);
    SkillsOfOnePiece(head);
    JoinAtFirst(xs, pad);
    SkillsAtComma(head, " " + Join(xs[1..], ", "));
    assert [xs[0]] + xs[1..] == xs;
  }

  /** The skills shown as `skills.join(', ')` read back as the same list. */
  lemma {:induction false} SkillsRoundTrip(xs: seq<string>)
    requires IsCleanSkillList(xs)
    ensures SkillsFromText(Join(xs, ", ")) == xs
  {
    SkillsRoundTripPadded(xs, "");
    assert "" + Join(xs, ", ") == Join(xs, ", ");
  }

  /** Reading the text back, joining and reading again changes nothing. */
  lemma {:induction false} SkillsFromTextStable(text: string)
    ensures SkillsFromText(Join(SkillsFromText(text), ", ")) == SkillsFromText(text)
  {
    var xs := SkillsFromText(text);
    assert IsCleanSkillList(xs) by {
      forall i | 0 <= i < |xs| ensures ',' !in xs[i] {
        SkillPieceHasNoComma(text, xs[i]);
      }
    }
    SkillsRoundTrip(xs);
  }

  /** No skill read from the text contains a comma. */
  lemma {:induction false} SkillPieceHasNoComma(text: string, x: string)
    requires x in SkillsFromText(text)
    ensures ',' !in x
  {
    var pieces := Split(text, ',');
    CleanPiecesFrom(pieces, x);
    var i :| 0 <= i < |pieces| && x == Trim(pieces[i]);
  }
}
