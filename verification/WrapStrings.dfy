/** pswrap's pswstring.c: the lengths and the C initialisers of string literals. */
module WrapStrings {

  datatype Option<T> = None | Some(value: T)

  const MAX_PER_LINE := 16

  predicate Octal(c: char) {
    '0' <= c <= '7'
  }

  /** What the scanner leaves in a string: every backslash starts a pair of backslashes or three octal digits. */
  predicate Encoded(s: string)
    decreases |s|
  {
    if s == "" then true
    else if s[0] != '\\' then Encoded(s[1..])
    else if |s| >= 2 && s[1] == '\\' then Encoded(s[2..])
    else |s| >= 4 && Octal(s[1]) && Octal(s[2]) && Octal(s[3]) && Encoded(s[4..])
  }

  function OctalValue(a: char, b: char, c: char): int {
    ((a as int - 48) * 64 + (b as int - 48) * 8 + (c as int - 48)) % 256
  }

  /** How many characters of the encoding make the next character, and which one it is. */
  function Unit(s: string): (n: nat)
    requires Encoded(s) && s != ""
    ensures 1 <= n <= |s| && Encoded(s[n..])
  {
    if s[0] != '\\' then 1 else if s[1] == '\\' then 2 else 4
  }

  function First(s: string): int
    requires Encoded(s) && s != ""
  {
    if s[0] != '\\' then s[0] as int else if s[1] == '\\' then '\\' as int else OctalValue(s[1], s[2], s[3])
  }

  /** The characters of a string literal. */
  function Chars(s: string): seq<int>
    requires Encoded(s)
    decreases |s|
  {
    if s == "" then [] else [First(s)] + Chars(s[Unit(s)..])
  }

  /** How many characters PSWStringLength counts, or None if it steps over the end of the string. */
  function Scanned(s: string): Option<nat>
    decreases |s|
  {
    if s == "" then Some(0)
    else
      var n := if s[0] != '\\' then 1 else if |s| >= 2 && s[1] == '\\' then 2 else 4;
      if n > |s| || Scanned(s[n..]).None? then None else Some(1 + Scanned(s[n..]).value)
  }

  lemma {:induction false} EncodedScans(s: string)
    requires Encoded(s)
    ensures Scanned(s) == Some(|Chars(s)|)
    decreases |s|
  {
    if s != "" { EncodedScans(s[Unit(s)..]); }
  }

  lemma {:induction false} ScannedAtMost(s: string)
    ensures Scanned(s).Some? ==> Scanned(s).value <= |s|
    decreases |s|
  {
    if s != "" {
      var n := if s[0] != '\\' then 1 else if |s| >= 2 && s[1] == '\\' then 2 else 4;
      if n <= |s| { ScannedAtMost(s[n..]); }
    }
  }

  /** A text that the scanner left as it was written, as it does with a literal name, has its length counted exactly
      when it has no backslash. */
  lemma {:induction false} PlainLength(s: string)
    ensures Scanned(s) == Some(|s|) <==> '\\' !in s
    decreases |s|
  {
    if s != "" {
      assert s == [s[0]] + s[1..];
      var n := if s[0] != '\\' then 1 else if |s| >= 2 && s[1] == '\\' then 2 else 4;
      if n <= |s| {
        ScannedAtMost(s[n..]);
        if n == 1 { PlainLength(s[1..]); }
      }
    }
  }

  /** /a\b is read past its end, and /a\bcd is taken for two characters. */
  lemma {:induction false} BackslashNames()
    ensures Scanned("a\\b") == None && Scanned("a\\bcd") == Some(2)
  {
    assert "a\\b"[1..] == "\\b" && Scanned("\\b") == None;
    assert "a\\bcd"[1..] == "\\bcd" && "\\bcd"[4..] == "" && Scanned("\\bcd") == Some(1);
  }

  lemma {:induction false} ScannedEnd(s: string)
    ensures Scanned(s[|s|..]) == Some(0)
  {
  }

  /** One round of the loop. */
  lemma {:induction false} ScannedStep(s: string, c: nat)
    requires c < |s|
    ensures var c1 := c + if s[c] != '\\' then 1 else if c + 1 < |s| && s[c + 1] == '\\' then 2 else 4;
            if c1 > |s| || Scanned(s[c1..]).None? then Scanned(s[c..]).None? else Scanned(s[c..]) == Some(1 + Scanned(s[c1..]).value)
  {
    var n := if s[c] != '\\' then 1 else if c + 1 < |s| && s[c + 1] == '\\' then 2 else 4;
    assert s[c..][0] == s[c] && |s[c..]| == |s| - c;
    if c + n <= |s| { assert s[c..][n..] == s[c + n..]; }
  }

  /** PSWStringLength */
  method StringLength(s: string) returns (len: Option<nat>)
    ensures len == Scanned(s) && (Encoded(s) ==> len == Some(|Chars(s)|))
  {
    hide Encoded, Chars, Scanned;
    if Encoded(s) { EncodedScans(s); }
    var c, n := 0, 0;
    assert s[0..] == s;
    ScannedEnd(s);
    while c < |s|
      invariant c <= |s| ==> Scanned(s) == if Scanned(s[c..]).None? then None else Some(n + Scanned(s[c..]).value)
      invariant c > |s| ==> Scanned(s).None?
    {
      ghost var here := c;
      c := c + 1;
      if s[c - 1] == '\\' {
        c := c + 1;
        if c > |s| || s[c - 1] != '\\' { c := c + 2; }
      }
      ScannedStep(s, here);
      n := n + 1;
    }
    len := if c > |s| then None else Some(n);
  }

  /** The value of a character constant of C. */
  function CValue(t: string): Option<int> {
    var n := |t|;
    if n < 3 || t[0] != '\'' || t[n - 1] != '\'' then None
    else if n == 3 then
      if t[1] == '\'' || t[1] == '\\' || t[1] == '\n' then None else Some(t[1] as int)
    else if t[1] != '\\' then None
    else if n == 6 && Octal(t[2]) && Octal(t[3]) && Octal(t[4]) then Some(OctalValue(t[2], t[3], t[4]))
    else if n != 4 then None
    else match t[2]
      case '\\' => Some(92)
      case '\'' => Some(39)
      case '\"' => Some(34)
      case 'b' => Some(8)
      case 'f' => Some(12)
      case 't' => Some(9)
      case _ => None
  }

  /** An initialiser list: the texts of n values, with separators between them. */
  predicate Listed(out: seq<string>, n: nat) {
    && |out| == (if n == 0 then 0 else 2 * n - 1)
    && forall k :: 0 <= k < |out| && k % 2 == 1 ==> out[k] == "," || out[k] == ",\n     "
  }

  /** The values that a list of C constants has. */
  predicate Values(out: seq<string>, v: seq<int>, value: string -> Option<int>) {
    Listed(out, |v|) && forall k :: 0 <= k < |v| ==> value(out[2 * k]) == Some(v[k])
  }

  /** % as C has it */
  function Remainder(a: int, b: nat): int
    requires b > 0
  {
    if a < 0 then -(-a % b) else a % b
  }

  /** The switch of PSWOutputStringChars: the constant for the character at c, and where the next one starts. */
  method OutputChar(s: string, c0: nat, perline0: int) returns (text: string, c: nat, perline: int)
    requires c0 < |s| && Encoded(s[c0..])
    ensures c == c0 + Unit(s[c0..]) && CValue(text) == Some(First(s[c0..]))
  {
    c, perline := c0 + 1, perline0;
    var b := s[c0];
    if b == '\\' {
      b := s[c];
      c := c + 1;
      if b != '\\' {
        text := ['\'', '\\', b, s[c], s[c + 1], '\''];
        c := c + 2;
      } else {
        text := ['\'', '\\', b, '\''];
      }
    } else if b == '\'' {
      text := "'\\''";
    } else if b == '\"' {
      text := "'\\\"'";
    } else if b as int == 8 {
      text := "'\\b'";
    } else if b as int == 12 {
      text := "'\\f'";
    } else if b as int == 10 {
      text, perline := "'\\012'", perline + 1;
    } else if b as int == 13 {
      text, perline := "'\\015'", perline + 1;
    } else if b as int == 9 {
      text := "'\\t'";
    } else {
      text, perline := ['\'', b, '\''], perline - 1;
    }
  }

  /** The values so far, each followed by a separator when more are to come. */
  predicate Listing(out: seq<string>, done: seq<int>, more: bool, value: string -> Option<int>) {
    && |out| == (if more || done == [] then 2 * |done| else 2 * |done| - 1)
    && (forall k :: 0 <= k < |out| && k % 2 == 1 ==> out[k] == "," || out[k] == ",\n     ")
    && forall k :: 0 <= k < |done| ==> value(out[2 * k]) == Some(done[k])
  }

  lemma {:induction false} ListMore(out: seq<string>, done: seq<int>, text: string, v: int, sep: string, value: string -> Option<int>)
    requires Listing(out, done, true, value) && value(text) == Some(v) && (sep == "," || sep == ",\n     ")
    ensures Listing(out + [text], done + [v], false, value) && Listing(out + [text] + [sep], done + [v], true, value)
  {
    var o, d := out + [text], done + [v];
    assert forall k :: 0 <= k < |out| ==> o[k] == out[k];
    forall k | 0 <= k < |d| ensures value(o[2 * k]) == Some(d[k]) && (o + [sep])[2 * k] == o[2 * k] {
      if k < |done| { assert o[2 * k] == out[2 * k]; }
    }
  }

  /** The separator after a constant, and the place on the line. */
  method Separator(perline0: int) returns (sep: string, perline: int)
    ensures sep == "," || sep == ",\n     "
  {
    perline := perline0 + 1;
    sep := if perline >= MAX_PER_LINE then ",\n     " else ",";
    perline := Remainder(perline, MAX_PER_LINE);
  }

  /** PSWOutputStringChars: a constant for each character. */
  method OutputStringChars(s: string) returns (out: seq<string>)
    requires Encoded(s)
    ensures Values(out, Chars(s), CValue)
  {
    hide Listing, CValue, Chars, Encoded, First, Unit;
    NoChars();
    out := [];
    var c, perline := 0, 0;
    ghost var done: seq<int> := [];
    assert s[0..] == s && [] + Chars(s) == Chars(s);
    ListNone(CValue);
    while c < |s|
      invariant 0 <= c <= |s| && Encoded(s[c..]) && done + Chars(s[c..]) == Chars(s)
      invariant Listing(out, done, c < |s|, CValue)
    {
      var text, c1, perline1 := OutputChar(s, c, perline);
      ghost var v := First(s[c..]);
      CharsStep(s, c);
      assert done + ([v] + Chars(s[c1..])) == (done + [v]) + Chars(s[c1..]);
      c, perline := c1, perline1;
      var sep;
      if c < |s| {
        sep, perline := Separator(perline);
        ListMore(out, done, text, v, sep, CValue);
        out := out + [text] + [sep];
      } else {
        ListMore(out, done, text, v, ",", CValue);
        out := out + [text];
      }
      done := done + [v];
    }
    assert s[c..] == "" && done == Chars(s);
    ListDone(out, done, CValue);
  }

  lemma {:induction false} NoChars()
    ensures Encoded("") && Chars("") == []
  {
  }

  /** The next character, and the rest. */
  lemma {:induction false} CharsStep(s: string, c: nat)
    requires c < |s| && Encoded(s[c..])
    ensures var c1 := c + Unit(s[c..]);
            c1 <= |s| && Encoded(s[c1..]) && Chars(s[c..]) == [First(s[c..])] + Chars(s[c1..])
  {
    assert s[c..][Unit(s[c..])..] == s[c + Unit(s[c..])..];
  }

  lemma {:induction false} ListNone(value: string -> Option<int>)
    ensures forall more :: Listing([], [], more, value)
  {
  }

  lemma {:induction false} ListDone(out: seq<string>, done: seq<int>, value: string -> Option<int>)
    requires Listing(out, done, false, value)
    ensures Values(out, done, value)
  {
  }

  // ----- hexadecimal strings -----

  function Digit(c: char): int {
    if '0' <= c <= '9' then c as int - 48
    else if 'a' <= c <= 'f' then c as int - 87
    else if 'A' <= c <= 'F' then c as int - 55
    else -1
  }

  predicate Hex(s: string) {
    forall i :: 0 <= i < |s| ==> Digit(s[i]) >= 0
  }

  /** PSWHexStringLength */
  function HexStringLength(s: string): nat {
    (|s| + 1) / 2
  }

  /** The characters of a hexadecimal string as they are printed: an odd last digit makes a character alone. */
  function HexChars(s: string): seq<int> {
    if s == "" then []
    else if |s| == 1 then [Digit(s[0])]
    else [16 * Digit(s[0]) + Digit(s[1])] + HexChars(s[2..])
  }

  /** The characters of a hexadecimal string in PostScript: a missing last digit is 0 (section 3.2.2 of the
      PostScript Language Reference, third edition). */
  function PostScriptHexChars(s: string): seq<int> {
    if s == "" then []
    else if |s| == 1 then [16 * Digit(s[0])]
    else [16 * Digit(s[0]) + Digit(s[1])] + PostScriptHexChars(s[2..])
  }

  /** PSWHexStringLength is the number of characters printed and of those meant. */
  lemma {:induction false} HexLengths(s: string)
    ensures |HexChars(s)| == |PostScriptHexChars(s)| == HexStringLength(s)
  {
    if |s| >= 2 {
      HexLengths(s[2..]);
    }
  }

  lemma {:induction false} SameHead(h: int, a: seq<int>, b: seq<int>)
    ensures [h] + a == [h] + b <==> a == b
  {
    assert ([h] + a)[1..] == a && ([h] + b)[1..] == b;
  }

  /** What is printed is what PostScript means exactly when the number of digits is even or the last digit is 0. */
  lemma {:induction false} HexMeaning(s: string)
    requires Hex(s)
    ensures HexChars(s) == PostScriptHexChars(s) <==> |s| % 2 == 0 || s[|s| - 1] == '0'
  {
    if |s| == 1 {
      assert [Digit(s[0])][0] == Digit(s[0]) && [16 * Digit(s[0])][0] == 16 * Digit(s[0]);
    } else if |s| >= 2 {
      HexMeaning(s[2..]);
      SameHead(16 * Digit(s[0]) + Digit(s[1]), HexChars(s[2..]), PostScriptHexChars(s[2..]));
    }
  }

  /** <4> is 64 in PostScript, and is printed as 4. */
  lemma {:induction false} OddDigits()
    ensures PostScriptHexChars("4") == [64] && HexChars("4") == [4]
  {
    assert "4"[0] == '4';
  }

  /** The value of a hexadecimal constant of C with one or two digits. */
  function HexValue(t: string): Option<int> {
    if |t| < 3 || t[..2] != "0x" then None
    else if |t| == 3 && Digit(t[2]) >= 0 then Some(Digit(t[2]))
    else if |t| == 4 && Digit(t[2]) >= 0 && Digit(t[3]) >= 0 then Some(16 * Digit(t[2]) + Digit(t[3]))
    else None
  }

  /** PSWOutputHexStringChars */
  method OutputHexStringChars(s: string) returns (out: seq<string>)
    requires Hex(s)
    ensures Values(out, HexChars(s), HexValue)
  {
    hide Listing;
    out := [];
    var c, perline := 0, 0;
    ghost var done: seq<int> := [];
    assert s[0..] == s && [] + HexChars(s) == HexChars(s);
    ListNone(HexValue);
    while c < |s|
      invariant 0 <= c <= |s| && done + HexChars(s[c..]) == HexChars(s)
      invariant Listing(out, done, c < |s|, HexValue)
    {
      ghost var here := c;
      var tmp := [s[c]];
      c := c + 1;
      if c < |s| {
        tmp := tmp + [s[c]];
        c := c + 1;
      }
      ghost var v := HexChars(s[here..])[0];
      assert c == here + 2 ==> s[here..][2..] == s[c..];
      assert done + HexChars(s[here..]) == (done + [v]) + HexChars(s[c..]);
      var text := "0x" + tmp;
      assert text[..2] == "0x";
      if c < |s| {
        var sep;
        sep, perline := Separator(perline);
        ListMore(out, done, text, v, sep, HexValue);
        out := out + [text] + [sep];
      } else {
        ListMore(out, done, text, v, ",", HexValue);
        out := out + [text];
      }
      done := done + [v];
    }
    assert done == HexChars(s);
    ListDone(out, done, HexValue);
  }
}
