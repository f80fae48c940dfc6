/** Options that may be set by an environment variable, the configuration file or the command line. */
module Settings {
  import opened Sequences

  const INT_MAX := 0x7fff_ffff
  const INT_MIN := -0x8000_0000

  datatype OptionKind = StringKind | IntKind | BoolKind

  /** The values of options and of TOML keys; `VOther` stands for the kinds that no option has. */
  datatype Value = VString(text: string) | VInt(number: int) | VBool(flag: bool) | VOther

  predicate HasKind(v: Value, kind: OptionKind) {
    match kind
    case StringKind => v.VString?
    case IntKind => v.VInt? && INT_MIN <= v.number <= INT_MAX
    case BoolKind => v.VBool?
  }

  /** The fields of a `ConfigurableOption`. */
  datatype Setting = Setting(kind: OptionKind, value: Value, fromEnv: bool, fromConfig: bool,
                             fromCommandLine: bool, fromDefault: bool)

  // ---------------------------------------------------------------- reading a value from a text

  predicate Space(c: char) {
    c == ' ' || '\t' <= c <= '\r'
  }

  predicate Blank(s: string) {
    forall c :: c in s ==> Space(c)
  }

  function SkipSpace(s: string): string {
    if s != "" && Space(s[0]) then SkipSpace(s[1..]) else s
  }

  /** The text up to the first space. */
  function Word(s: string): string {
    if s == "" || Space(s[0]) then "" else [s[0]] + Word(s[1..])
  }

  function Digits(s: string): string {
    if s == "" || !('0' <= s[0] <= '9') then "" else [s[0]] + Digits(s[1..])
  }

  function Decimal(s: string): int {
    if s == "" then 0 else 10 * Decimal(s[..|s|-1]) + (s[|s|-1] as int - '0' as int)
  }

  /** A sign and digits; no digits, no number. */
  function Number(s: string): Option<int> {
    var digits := Digits(if s != "" && s[0] in "+-" then s[1..] else s);
    if digits == "" then None
    else Some(if s[0] == '-' then -Decimal(digits) else Decimal(digits))
  }

  datatype Extraction = Extraction(ok: bool, value: Value)

  /**
    `stream >> value`. A blank text leaves the value alone. A text that is no number leaves 0
    behind, and one that is out of range the nearest bound, although the extraction fails.
   */
  function Extract(text: string, kind: OptionKind, kept: Value): Extraction {
    var rest := SkipSpace(text);
    if rest == "" then Extraction(false, kept)
    else
      match kind
      case StringKind => Extraction(true, VString(Word(rest)))
      case IntKind =>
        var n := Number(rest);
        if n.None? then Extraction(false, VInt(0))
        else if n.value > INT_MAX then Extraction(false, VInt(INT_MAX))
        else if n.value < INT_MIN then Extraction(false, VInt(INT_MIN))
        else Extraction(true, VInt(n.value))
      case BoolKind =>
        var n := Number(rest);
        if n.None? then Extraction(false, VBool(false))
        else Extraction(n.value == 0 || n.value == 1, VBool(n.value != 0))
  }

  lemma {:induction false} SkipsOnlySpace(s: string)
    ensures SkipSpace(s) == "" <==> Blank(s)
    ensures SkipSpace(s) != "" ==> !Space(SkipSpace(s)[0])
    ensures |SkipSpace(s)| <= |s|
    ensures |SkipSpace(s)| == |s| ==> SkipSpace(s) == s
  {
    if s != "" {
      assert s == [s[0]] + s[1..];
      if Space(s[0]) {
        SkipsOnlySpace(s[1..]);
      } else {
        assert s[0] in s;
      }
    }
  }

  lemma {:induction false} WordIsWhole(s: string)
    ensures |Word(s)| <= |s|
    ensures Word(s) == s <==> forall c :: c in s ==> !Space(c)
  {
    if s != "" {
      assert s == [s[0]] + s[1..];
      assert s[0] in s;
      WordIsWhole(s[1..]);
      if Word(s) == s {
        assert Word(s)[1..] == Word(s[1..]);
      }
    }
  }

  /** A text is taken over whole exactly when it has no spaces; a longer one is cut at the first of them. */
  lemma TextTakenWhole(text: string, kept: Value)
    ensures Extract(text, StringKind, kept) == Extraction(true, VString(text))
      <==> text != "" && forall c :: c in text ==> !Space(c)
  {
    var rest := SkipSpace(text);
    SkipsOnlySpace(text);
    WordIsWhole(rest);
    if rest != "" && Word(rest) == text {
      assert rest == text;
      WordIsWhole(text);
    }
    if text != "" && forall c :: c in text ==> !Space(c) {
      assert text[0] in text;
      WordIsWhole(text);
    }
  }

  lemma ExtractKeepsKind(text: string, kind: OptionKind, kept: Value)
    requires HasKind(kept, kind)
    ensures HasKind(Extract(text, kind, kept).value, kind)
  {
  }

  /** A number that is neither 0 nor a bound survives a failed extraction exactly when the text is blank. */
  lemma FailedExtraction(text: string, kept: Value)
    requires kept.VInt? && kept.number != 0 && INT_MIN < kept.number < INT_MAX
    requires !Extract(text, IntKind, kept).ok
    ensures Extract(text, IntKind, kept).value == kept <==> Blank(text)
  {
    SkipsOnlySpace(text);
  }

  /** What a text that is not taken leaves behind as a number. */
  lemma LeftBehind(text: string, kept: Value)
    requires kept.VInt? && !Extract(text, IntKind, kept).ok
    ensures var left, n := Extract(text, IntKind, kept).value, Number(SkipSpace(text));
      && (Blank(text) ==> left == kept)
      && (!Blank(text) && n.None? ==> left == VInt(0))
      && (!Blank(text) && n.Some? ==>
            (n.value > INT_MAX && left == VInt(INT_MAX)) || (n.value < INT_MIN && left == VInt(INT_MIN)))
  {
    SkipsOnlySpace(text);
  }

  /** A text that begins with a letter is no number. */
  lemma NoNumber(text: string)
    requires text != "" && 'a' <= text[0] <= 'z'
    ensures !Blank(text) && SkipSpace(text) == text && Number(text).None?
  {
    assert text[0] in text && !Space(text[0]);
  }

  lemma {:induction false} AllDigits(s: string)
    requires forall c :: c in s ==> '0' <= c <= '9'
    ensures Digits(s) == s
  {
    if s != "" {
      assert s == [s[0]] + s[1..];
      assert s[0] in s && forall c :: c in s[1..] ==> c in s;
      AllDigits(s[1..]);
    }
  }

  /** One more digit. */
  lemma NextDigit(s: string, c: char, value: int) returns (t: string)
    requires Decimal(s) == value && '0' <= c <= '9' && forall d :: d in s ==> '0' <= d <= '9'
    ensures t == s + [c] && Decimal(t) == 10 * value + (c as int - '0' as int)
    ensures forall d :: d in t ==> '0' <= d <= '9'
  {
    t := s + [c];
    assert t[..|s|] == s;
  }

  /** The digits of 2^31. */
  lemma TooLarge() returns (s: string)
    ensures s == "2147483648" && Decimal(s) == INT_MAX + 1 && forall d :: d in s ==> '0' <= d <= '9'
  {
    var s1 := NextDigit("", '2', 0);
    var s2 := NextDigit(s1, '1', 2);
    var s3 := NextDigit(s2, '4', 21);
    var s4 := NextDigit(s3, '7', 214);
    var s5 := NextDigit(s4, '4', 2147);
    var s6 := NextDigit(s5, '8', 21474);
    var s7 := NextDigit(s6, '3', 214748);
    var s8 := NextDigit(s7, '6', 2147483);
    var s9 := NextDigit(s8, '4', 21474836);
    s := NextDigit(s9, '8', 214748364);
  }

  /** A text of digits is read as the number they make. */
  lemma DigitsAreNumber(s: string)
    requires s != "" && forall c :: c in s ==> '0' <= c <= '9'
    ensures !Blank(s) && SkipSpace(s) == s && Number(s) == Some(Decimal(s))
  {
    assert s[0] in s && !Space(s[0]);
    AllDigits(s);
  }

  // ---------------------------------------------------------------- what a text says

  predicate IsDigit(c: char) {
    '0' <= c <= '9'
  }

  predicate IsSign(sign: string) {
    sign == "" || sign == "+" || sign == "-"
  }

  /** Spaces, a sign or none, all the digits there are and something else. */
  predicate Spells(text: string, spaces: string, sign: string, digits: string, rest: string) {
    && text == spaces + sign + digits + rest
    && Blank(spaces) && IsSign(sign)
    && digits != "" && (forall c :: c in digits ==> IsDigit(c))
    && (rest != "" ==> !IsDigit(rest[0]))
  }

  function Signed(sign: string, digits: string): int {
    if sign == "-" then -Decimal(digits) else Decimal(digits)
  }

  lemma {:induction false} SpaceSkipped(spaces: string, rest: string)
    requires Blank(spaces) && (rest != "" ==> !Space(rest[0]))
    ensures SkipSpace(spaces + rest) == rest
  {
    if spaces == "" {
      assert spaces + rest == rest;
    } else {
      assert spaces[0] in spaces;
      assert (spaces + rest)[1..] == spaces[1..] + rest;
      assert forall c :: c in spaces[1..] ==> c in spaces;
      SpaceSkipped(spaces[1..], rest);
    }
  }

  lemma {:induction false} DigitsRead(digits: string, rest: string)
    requires (forall c :: c in digits ==> IsDigit(c)) && (rest != "" ==> !IsDigit(rest[0]))
    ensures Digits(digits + rest) == digits
  {
    if digits == "" {
      assert digits + rest == rest;
    } else {
      assert digits[0] in digits;
      assert (digits + rest)[1..] == digits[1..] + rest;
      assert forall c :: c in digits[1..] ==> c in digits;
      DigitsRead(digits[1..], rest);
      assert digits == [digits[0]] + digits[1..];
    }
  }

  lemma SignedRead(sign: string, digits: string, rest: string)
    requires IsSign(sign) && digits != "" && (forall c :: c in digits ==> IsDigit(c))
    requires rest != "" ==> !IsDigit(rest[0])
    ensures Number(sign + digits + rest) == Some(Signed(sign, digits))
    ensures !Space((sign + digits + rest)[0])
  {
    var s := sign + digits + rest;
    DigitsRead(digits, rest);
    assert digits[0] in digits;
    if sign == "" {
      assert s == digits + rest;
    } else {
      assert s[1..] == digits + rest;
    }
  }

  lemma SpelledNumber(text: string, spaces: string, sign: string, digits: string, rest: string)
    requires Spells(text, spaces, sign, digits, rest)
    ensures SkipSpace(text) != "" && Number(SkipSpace(text)) == Some(Signed(sign, digits))
  {
    var s := sign + digits + rest;
    SignedRead(sign, digits, rest);
    assert text == spaces + s;
    SpaceSkipped(spaces, s);
  }

  /** A number is taken iff it is in range, and then it is exactly the signed decimal number that the text spells. */
  lemma NumberTaken(text: string, spaces: string, sign: string, digits: string, rest: string, kept: Value)
    requires Spells(text, spaces, sign, digits, rest)
    ensures var n := Signed(sign, digits);
      Extract(text, IntKind, kept) ==
        if n > INT_MAX then Extraction(false, VInt(INT_MAX))
        else if n < INT_MIN then Extraction(false, VInt(INT_MIN))
        else Extraction(true, VInt(n))
  {
    SpelledNumber(text, spaces, sign, digits, rest);
  }

  /** A switch is taken iff the number is 0 or 1. */
  lemma SwitchTaken(text: string, spaces: string, sign: string, digits: string, rest: string, kept: Value)
    requires Spells(text, spaces, sign, digits, rest)
    ensures var n := Signed(sign, digits);
      Extract(text, BoolKind, kept) == Extraction(n == 0 || n == 1, VBool(n != 0))
  {
    SpelledNumber(text, spaces, sign, digits, rest);
  }

  lemma {:induction false} SpacesAhead(text: string) returns (spaces: string)
    ensures text == spaces + SkipSpace(text) && Blank(spaces)
    decreases |text|
  {
    if text != "" && Space(text[0]) {
      var tail := SkipSpace(text[1..]);
      var more := SpacesAhead(text[1..]);
      spaces := [text[0]] + more;
      assert text == [text[0]] + text[1..];
      assert spaces + tail == [text[0]] + (more + tail);
    } else {
      spaces := "";
    }
  }

  lemma {:induction false} DigitsAhead(s: string) returns (rest: string)
    ensures s == Digits(s) + rest && (rest != "" ==> !IsDigit(rest[0]))
    ensures forall c :: c in Digits(s) ==> IsDigit(c)
    decreases |s|
  {
    if s == "" || !IsDigit(s[0]) {
      rest := s;
    } else {
      rest := DigitsAhead(s[1..]);
      assert s == [s[0]] + s[1..];
    }
  }

  lemma SignAndDigits(s: string) returns (sign: string, digits: string, rest: string)
    requires Number(s).Some?
    ensures s == sign + digits + rest && IsSign(sign) && digits != "" && (rest != "" ==> !IsDigit(rest[0]))
    ensures forall c :: c in digits ==> IsDigit(c)
  {
    if s[0] in "+-" {
      sign := [s[0]];
      rest := DigitsAhead(s[1..]);
      digits := Digits(s[1..]);
      SplitSign(s, sign, digits, rest);
    } else {
      sign := "";
      rest := DigitsAhead(s);
      digits := Digits(s);
    }
  }

  lemma SplitSign(s: string, sign: string, digits: string, rest: string)
    requires s != "" && sign == [s[0]] && s[1..] == digits + rest
    ensures s == sign + digits + rest
  {
    assert s == [s[0]] + s[1..];
    assert sign + (digits + rest) == sign + digits + rest;
  }

  /** Only a text that spells a number is read as one. */
  lemma NumberIsSpelled(text: string) returns (spaces: string, sign: string, digits: string, rest: string)
    requires Number(SkipSpace(text)).Some?
    ensures Spells(text, spaces, sign, digits, rest)
  {
    spaces := SpacesAhead(text);
    sign, digits, rest := SignAndDigits(SkipSpace(text));
    assert spaces + (sign + digits + rest) == spaces + sign + digits + rest;
  }

  lemma {:induction false} WordRead(word: string, rest: string)
    requires (forall c :: c in word ==> !Space(c)) && (rest != "" ==> Space(rest[0]))
    ensures Word(word + rest) == word
  {
    if word == "" {
      assert word + rest == rest;
    } else {
      assert word[0] in word;
      assert (word + rest)[1..] == word[1..] + rest;
      assert forall c :: c in word[1..] ==> c in word;
      WordRead(word[1..], rest);
      assert word == [word[0]] + word[1..];
    }
  }

  /** Of a text its first word is taken. */
  lemma FirstWordTaken(text: string, spaces: string, word: string, rest: string, kept: Value)
    requires text == spaces + word + rest && Blank(spaces)
    requires word != "" && (forall c :: c in word ==> !Space(c)) && (rest != "" ==> Space(rest[0]))
    ensures Extract(text, StringKind, kept) == Extraction(true, VString(word))
  {
    assert text == spaces + (word + rest);
    assert word[0] in word && (word + rest)[0] == word[0];
    SpaceSkipped(spaces, word + rest);
    WordRead(word, rest);
  }

  /** A blank text is no value of any kind and changes nothing. */
  lemma BlankIsKept(text: string, kind: OptionKind, kept: Value)
    requires Blank(text)
    ensures Extract(text, kind, kept) == Extraction(false, kept)
  {
    SkipsOnlySpace(text);
  }

  // ---------------------------------------------------------------- printed numbers

  /** The digits of a number. */
  function Printed(n: nat): string {
    var digit := ('0' as int + n % 10) as char;
    if n < 10 then [digit] else Printed(n / 10) + [digit]
  }

  lemma {:induction false} PrintedIsRead(n: nat)
    ensures Printed(n) != "" && (forall c :: c in Printed(n) ==> IsDigit(c))
    ensures Decimal(Printed(n)) == n
  {
    var s, digit := Printed(n), ('0' as int + n % 10) as char;
    if n < 10 {
      assert s == [digit] && s[..0] == "";
    } else {
      PrintedIsRead(n / 10);
      assert s[..|s|-1] == Printed(n / 10) && s[|s|-1] == digit;
    }
  }

  lemma SignedDigitsTaken(text: string, sign: string, digits: string, kept: Value)
    requires text == sign + digits && IsSign(sign) && digits != "" && (forall c :: c in digits ==> IsDigit(c))
    requires INT_MIN <= Signed(sign, digits) <= INT_MAX
    ensures Extract(text, IntKind, kept) == Extraction(true, VInt(Signed(sign, digits)))
  {
    assert text == "" + sign + digits + "";
    NumberTaken(text, "", sign, digits, "", kept);
  }

  /** A printed number that is in range is taken as it is, with a minus sign as its negative. */
  lemma PrintedTaken(n: nat, text: string, sign: string, kept: Value)
    requires text == sign + Printed(n) && IsSign(sign)
    requires var m: int := if sign == "-" then 0 - n else n; INT_MIN <= m <= INT_MAX
    ensures Extract(text, IntKind, kept) == Extraction(true, VInt(if sign == "-" then 0 - n else n))
  {
    var digits := Printed(n);
    PrintedIsRead(n);
    SignedDigitsTaken(text, sign, digits, kept);
  }
}
