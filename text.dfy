/** Character and string operations shared by the frontend and the backend:
    ASCII case folding, whitespace, substring search, joining and splitting
    words, decimal formatting and JavaScript's parseInt. */
module Text {
  import opened Wrappers

  /** The whitespace characters that str.split(), the regex class \s and
      String.prototype.trim() agree on within ASCII. */
  predicate IsSpace(c: char) {
    c == ' ' || c == '\t' || c == '\n' || c == '\r' || c == '\U{000B}' || c == '\U{000C}'
  }

  predicate IsUpper(c: char) {
    'A' <= c <= 'Z'
  }

  predicate IsLowerLetter(c: char) {
    'a' <= c <= 'z'
  }

  predicate IsLetter(c: char) {
    IsUpper(c) || IsLowerLetter(c)
  }

  predicate IsDigit(c: char) {
    '0' <= c <= '9'
  }

  /** Case folding of one character: ASCII upper-case letters become
      lower-case, everything else is left alone. */
  function ToLower(c: char): (r: char)
    ensures !IsUpper(r)
    ensures IsUpper(c) ==> IsLowerLetter(r)
    ensures !IsUpper(c) ==> r == c
    ensures IsLetter(r) <==> IsLetter(c)
  {
    if IsUpper(c) then (c as int + 32) as char else c
  }

  /** str.lower() / String.prototype.toLowerCase(), character by character. */
  function Lower(s: string): (r: string)
    ensures |r| == |s|
    ensures forall i :: 0 <= i < |s| ==> r[i] == ToLower(s[i])
  {
    seq(|s|, i requires 0 <= i < |s| => ToLower(s[i]))
  }

  lemma LowerIdempotent(s: string)
    ensures Lower(Lower(s)) == Lower(s)
  {
  }

  /** `q in s` in Python, `s.includes(q)` in JavaScript. */
  predicate Contains(s: string, q: string) {
    exists i :: 0 <= i <= |s| - |q| && OccursAt(s, q, i)
  }

  /** Some entry of the list contains `q` once lower-cased: Python's
      `any(q in x.lower() for x in list)`, JavaScript's
      `list.some((x) => x.toLowerCase().includes(q))`. */
  predicate SomeContains(list: seq<string>, q: string) {
    exists k :: 0 <= k < |list| && Contains(Lower(list[k]), q)
  }

  predicate OccursAt(s: string, q: string, i: int) {
    0 <= i && i + |q| <= |s| && s[i..i + |q|] == q
  }

  /** sep.join(parts) in Python, parts.join(sep) in JavaScript. */
  function Join(sep: string, parts: seq<string>): string {
    if |parts| == 0 then ""
    else if |parts| == 1 then parts[0]
    else parts[0] + sep + Join(sep, parts[1..])
  }

  /** A non-empty string without whitespace: what str.split() yields. */
  predicate IsWord(w: string) {
    w != [] && forall i :: 0 <= i < |w| ==> !IsSpace(w[i])
  }

  function DropSpaces(s: string): (r: string)
    ensures |r| <= |s| && r == s[|s| - |r|..]
    ensures r == [] || !IsSpace(r[0])
  {
    if s != [] && IsSpace(s[0]) then DropSpaces(s[1..]) else s
  }

  lemma {:induction false} DropSpacesDropsSpaces(s: string)
    ensures forall i :: 0 <= i < |s| - |DropSpaces(s)| ==> IsSpace(s[i])
  {
    if s != [] && IsSpace(s[0]) {
      DropSpacesDropsSpaces(s[1..]);
    }
  }

  function DropTrailingSpaces(s: string): (r: string)
    ensures |r| <= |s| && r == s[..|r|]
    ensures r == [] || !IsSpace(r[|r| - 1])
    ensures forall i :: |r| <= i < |s| ==> IsSpace(s[i])
  {
    if s != [] && IsSpace(s[|s| - 1]) then DropTrailingSpaces(s[..|s| - 1]) else s
  }

  /** String.prototype.trim(). */
  function Trim(s: string): string {
    DropTrailingSpaces(DropSpaces(s))
  }

  /** A string trims to the empty string exactly when it is all whitespace. */
  lemma TrimEmpty(s: string)
    ensures Trim(s) == [] <==> forall i :: 0 <= i < |s| ==> IsSpace(s[i])
  {
    var t := DropSpaces(s);
    DropSpacesDropsSpaces(s);
    assert t != [] ==> t[0] == s[|s| - |t|];
  }

  predicate NoSpace(w: string) {
    forall i :: 0 <= i < |w| ==> !IsSpace(w[i])
  }

  /** str.split() with no argument: the maximal runs of non-whitespace, in order. */
  function Split(s: string): seq<string> {
    SplitFrom(s, "")
  }

  /** Splits `s` when the characters of `word` have already been read as the
      beginning of the current word. */
  function SplitFrom(s: string, word: string): seq<string> {
    if s == [] then (if word == [] then [] else [word])
    else if IsSpace(s[0]) then (if word == [] then [] else [word]) + SplitFrom(s[1..], "")
    else SplitFrom(s[1..], word + [s[0]])
  }

  /** Every piece str.split() yields is a word. */
  lemma {:induction false} SplitFromYieldsWords(s: string, word: string)
    requires NoSpace(word)
    ensures forall k :: 0 <= k < |SplitFrom(s, word)| ==> IsWord(SplitFrom(s, word)[k])
  {
    if s != [] {
      if IsSpace(s[0]) {
        SplitFromYieldsWords(s[1..], "");
      } else {
        SplitFromYieldsWords(s[1..], word + [s[0]]);
      }
    }
  }

  lemma SplitYieldsWords(s: string)
    ensures forall k :: 0 <= k < |Split(s)| ==> IsWord(Split(s)[k])
  {
    SplitFromYieldsWords(s, "");
  }

  /** Reading a run of non-whitespace extends the current word. */
  lemma {:induction false} SplitFromWord(w: string, rest: string, word: string)
    requires NoSpace(w)
    ensures SplitFrom(w + rest, word) == SplitFrom(rest, word + w)
  {
    if w != [] {
      assert (w + rest)[1..] == w[1..] + rest;
      assert word + [w[0]] + w[1..] == word + w;
      SplitFromWord(w[1..], rest, word + [w[0]]);
    } else {
      assert w + rest == rest;
      assert word + w == word;
    }
  }

  lemma JoinStartsWithFirst(sep: string, parts: seq<string>)
    requires |parts| >= 1
    ensures |Join(sep, parts)| >= |parts[0]|
    ensures Join(sep, parts)[..|parts[0]|] == parts[0]
  {
  }

  /** Splitting words joined by single spaces gives the words back. */
  lemma {:induction false} SplitJoin(ws: seq<string>)
    requires forall k :: 0 <= k < |ws| ==> IsWord(ws[k])
    ensures Split(Join(" ", ws)) == ws
    decreases |ws|
  {
    if |ws| == 1 {
      assert Join(" ", ws) == ws[0] + [];
      SplitFromWord(ws[0], [], "");
      assert "" + ws[0] == ws[0];
    } else if |ws| > 1 {
      var w := ws[0];
      var rest := Join(" ", ws[1..]);
      assert Join(" ", ws) == w + (" " + rest);
      SplitFromWord(w, " " + rest, "");
      assert "" + w == w;
      assert (" " + rest)[1..] == rest;
      assert SplitFrom(" " + rest, w) == [w] + SplitFrom(rest, "");
      var tail := ws[1..];
      forall k | 0 <= k < |tail|
        ensures IsWord(tail[k])
      {
        assert tail[k] == ws[k + 1];
      }
      SplitJoin(tail);
      assert [w] + tail == ws;
    }
  }

  // ----- decimal numbers -----

  function DigitChar(d: nat): (c: char)
    requires d < 10
    ensures IsDigit(c) && c as int - '0' as int == d
  {
    ('0' as int + d) as char
  }

  /** Decimal digits of a natural number, most significant first, no leading zeros
      (f"{n}" in Python, String(n) in JavaScript). */
  function Decimal(n: nat): (s: string)
    ensures |s| >= 1
    ensures forall i :: 0 <= i < |s| ==> IsDigit(s[i])
  {
    if n < 10 then [DigitChar(n)] else Decimal(n / 10) + [DigitChar(n % 10)]
  }

  predicate AllDigits(s: string) {
    forall i :: 0 <= i < |s| ==> IsDigit(s[i])
  }

  /** The number a string of digits denotes, leading zeros allowed. */
  function DigitsValue(s: string): nat
    requires AllDigits(s)
  {
    if s == [] then 0 else 10 * DigitsValue(s[..|s| - 1]) + (s[|s| - 1] as int - '0' as int)
  }

  lemma {:induction false} DecimalValue(n: nat)
    ensures DigitsValue(Decimal(n)) == n
  {
    if n >= 10 {
      var s := Decimal(n);
      assert s[..|s| - 1] == Decimal(n / 10);
      DecimalValue(n / 10);
    }
  }

  lemma {:induction false} LeadingZeroValue(s: string)
    requires AllDigits(s)
    ensures AllDigits(['0'] + s) && DigitsValue(['0'] + s) == DigitsValue(s)
  {
    if s != [] {
      var z := ['0'] + s;
      assert z[..|z| - 1] == ['0'] + s[..|s| - 1];
      LeadingZeroValue(s[..|s| - 1]);
    }
  }

  function Zeros(n: nat): (z: string)
    ensures |z| == n && forall i :: 0 <= i < n ==> z[i] == '0'
  {
    seq(n, i => '0')
  }

  /** Left-pads with '0' to at least `width` characters, as the format spec `0Nd` does. */
  function ZeroPad(s: string, width: nat): (r: string)
    ensures |r| == if |s| >= width then |s| else width
    ensures r[|r| - |s|..] == s
    ensures forall i :: 0 <= i < |r| - |s| ==> r[i] == '0'
  {
    if |s| >= width then s else Zeros(width - |s|) + s
  }

  lemma {:induction false} ZerosValue(n: nat, s: string)
    requires AllDigits(s)
    ensures AllDigits(Zeros(n) + s) && DigitsValue(Zeros(n) + s) == DigitsValue(s)
  {
    if n > 0 {
      ZerosValue(n - 1, s);
      assert Zeros(n) + s == ['0'] + (Zeros(n - 1) + s);
      LeadingZeroValue(Zeros(n - 1) + s);
    } else {
      assert Zeros(n) + s == s;
    }
  }

  lemma ZeroPadValue(s: string, width: nat)
    requires AllDigits(s)
    ensures AllDigits(ZeroPad(s, width)) && DigitsValue(ZeroPad(s, width)) == DigitsValue(s)
  {
    if |s| < width {
      ZerosValue(width - |s|, s);
    }
  }

  /** Zero-padded decimal renderings of distinct numbers are distinct. */
  lemma PaddedDecimalInjective(a: nat, b: nat, width: nat)
    ensures ZeroPad(Decimal(a), width) == ZeroPad(Decimal(b), width) ==> a == b
  {
    ZeroPadValue(Decimal(a), width);
    ZeroPadValue(Decimal(b), width);
    DecimalValue(a);
    DecimalValue(b);
  }

  /** Length of the longest prefix of `s` made of digits. */
  function DigitPrefixLength(s: string): (n: nat)
    ensures n <= |s|
    ensures AllDigits(s[..n])
    ensures n < |s| ==> !IsDigit(s[n])
  {
    if s != [] && IsDigit(s[0]) then 1 + DigitPrefixLength(s[1..]) else 0
  }

  /** The leading run of digits of `s` as a number; None when there is none. */
  function ParseDigits(s: string): (r: Option<nat>)
    ensures r.None? <==> s == [] || !IsDigit(s[0])
  {
    var n := DigitPrefixLength(s);
    if n == 0 then None else Some(DigitsValue(s[..n]))
  }

  /** JavaScript's parseInt(s) in base 10: leading whitespace is skipped, an
      optional sign is read, then the longest run of digits; None stands for NaN. */
  function ParseInt(s: string): (r: Option<int>)
    ensures var t := DropSpaces(s);
      var digits := if t != [] && (t[0] == '-' || t[0] == '+') then t[1..] else t;
      && (r.None? <==> digits == [] || !IsDigit(digits[0]))
      && (r.Some? && r.value < 0 ==> t[0] == '-')
  {
    var t := DropSpaces(s);
    if t != [] && t[0] == '-' then
      match ParseDigits(t[1..])
      case None => None
      case Some(m) => Some(-(m as int))
    else if t != [] && t[0] == '+' then
      match ParseDigits(t[1..])
      case None => None
      case Some(m) => Some(m)
    else
      match ParseDigits(t)
      case None => None
      case Some(m) => Some(m)
  }

  /** A string that starts with a digit parses as its leading run of digits. */
  lemma ParseUnsigned(s: string)
    requires s != [] && IsDigit(s[0])
    ensures ParseDigits(s).Some?
    ensures ParseInt(s) == Some(ParseDigits(s).value)
  {
    assert DropSpaces(s) == s;
  }

  /** parseInt reads back what decimal formatting writes. */
  lemma ParseDecimal(n: nat)
    ensures ParseInt(Decimal(n)) == Some(n)
  {
    var s := Decimal(n);
    ParseUnsigned(s);
    assert DigitPrefixLength(s) == |s|;
    assert s[..|s|] == s;
    DecimalValue(n);
  }
}
