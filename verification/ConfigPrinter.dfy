/**
 The printer of modem configurations: a packed list of little-endian 32-bit values becomes a line of
 index=value items, the index in hexadecimal and the value in decimal.  A decoder shows that the line
 tells everything about the whole words of the input.
 */
module ConfigPrinter {
  import opened Prelude

  // ---------------------------------------------------------------- numbers

  function Digit(d: nat): char
    requires d < 16
  {
    if d < 10 then ('0' as int + d) as char else ('a' as int + d - 10) as char
  }

  /** The value of a hexadecimal digit, 16 for any other character. */
  function DigitValue(c: char): nat {
    if '0' <= c <= '9' then c as int - '0' as int
    else if 'a' <= c <= 'f' then c as int - 'a' as int + 10
    else 16
  }

  function Digits(n: nat, base: nat): string
    requires 2 <= base <= 16
  {
    if n < base then [Digit(n)] else Digits(n / base, base) + [Digit(n % base)]
  }

  /** The number that some digits stand for, which must not begin with a zero unless that is all. */
  function Number(s: string, base: nat): Option<nat> {
    if s == "" || DigitValue(s[|s| - 1]) >= base then None
    else if |s| == 1 then Some(DigitValue(s[0]))
    else
      match Number(s[..|s| - 1], base)
      case None => None
      case Some(n) => if n == 0 then None else Some(n * base + DigitValue(s[|s| - 1]))
  }

  lemma DigitRead(d: nat)
    requires d < 16
    ensures DigitValue(Digit(d)) == d
  {}

  lemma Divides(n: nat, base: nat)
    requires base >= 2
    ensures n / base * base + n % base == n && n % base < base
    ensures n >= base ==> n / base < n
  {}

  lemma NumberAppend(s: string, n: nat, d: nat, base: nat)
    requires base <= 16 && d < base && n > 0 && Number(s, base) == Some(n)
    ensures Number(s + [Digit(d)], base) == Some(n * base + d)
  {
    DigitRead(d);
    assert (s + [Digit(d)])[..|s|] == s;
  }

  predicate AllDigits(s: string) {
    forall c | c in s :: DigitValue(c) < 16
  }

  lemma {:induction false} NumberOfDigits(n: nat, base: nat)
    requires 2 <= base <= 16
    ensures Number(Digits(n, base), base) == Some(n)
    ensures AllDigits(Digits(n, base)) && Digits(n, base) != ""
    decreases n
  {
    Divides(n, base);
    DigitRead(n % base);
    if n < base {
      DigitRead(n);
    } else {
      NumberOfDigits(n / base, base);
      QuotientPositive(n, base);
      NumberAppend(Digits(n / base, base), n / base, n % base, base);
    }
  }

  lemma QuotientPositive(n: nat, base: nat)
    requires n >= base >= 2
    ensures n / base > 0
  {}

  lemma DigitWritten(c: char)
    requires DigitValue(c) < 16
    ensures Digit(DigitValue(c)) == c
  {}

  lemma DigitsAppend(m: nat, d: nat, base: nat, n: nat)
    requires 2 <= base <= 16 && d < base && m > 0 && n == m * base + d
    ensures Digits(n, base) == Digits(m, base) + [Digit(d)]
  {
    MulGrows(base, m);
    assert n == base * m + d;
    RemainderUnique(n, base, m, d);
  }

  /** What a numeral of more than one digit stands for. */
  lemma NumeralSplits(s: string, n: nat, base: nat) returns (m: nat)
    requires |s| > 1 && base <= 16 && Number(s, base) == Some(n)
    ensures Number(s[..|s| - 1], base) == Some(m) && m > 0
    ensures DigitValue(s[|s| - 1]) < base && n == m * base + DigitValue(s[|s| - 1])
  {
    m := Number(s[..|s| - 1], base).value;
  }

  /** The text printed for a number is the only one that stands for it without a leading zero. */
  lemma {:induction false} OnlyDigits(s: string, n: nat, base: nat)
    requires 2 <= base <= 16
    ensures Number(s, base) == Some(n) <==> s == Digits(n, base)
    decreases |s|
  {
    NumberOfDigits(n, base);
    if Number(s, base) == Some(n) {
      DigitWritten(s[|s| - 1]);
      if |s| > 1 {
        var m := NumeralSplits(s, n, base);
        OnlyDigits(s[..|s| - 1], m, base);
        DigitsAppend(m, DigitValue(s[|s| - 1]), base, n);
      }
    }
  }

  /** No leading zero. */
  lemma {:induction false} NoLeadingZero(n: nat, base: nat)
    requires 2 <= base <= 16
    ensures Digits(n, base) != ""
    ensures if n == 0 then Digits(n, base) == "0" else Digits(n, base)[0] != '0'
    decreases n
  {
    if n >= base {
      Divides(n, base);
      QuotientPositive(n, base);
      NoLeadingZero(n / base, base);
    }
  }

  /** The number of digits at the head of a text. */
  function Span(s: string): (n: nat)
    ensures n <= |s|
  {
    if s == "" || DigitValue(s[0]) >= 16 then 0 else 1 + Span(s[1..])
  }

  lemma {:induction false} SpanStops(s: string, rest: string)
    requires AllDigits(s)
    requires rest != "" && DigitValue(rest[0]) >= 16
    ensures Span(s + rest) == |s|
  {
    if s == "" {
      assert s + rest == rest;
    } else {
      assert (s + rest)[1..] == s[1..] + rest;
      SpanStops(s[1..], rest);
    }
  }

  // ---------------------------------------------------------------- words

  const WORD := 0x1_0000_0000

  /** struct.unpack("<I", buf) */
  function Unpack(b0: byte, b1: byte, b2: byte, b3: byte): (w: nat)
    ensures w < WORD
  {
    b0 + 0x100 * b1 + 0x1_0000 * b2 + 0x100_0000 * b3
  }

  function Pack(w: nat): seq<byte>
    requires w < WORD
  {
    [w % 0x100, w / 0x100 % 0x100, w / 0x1_0000 % 0x100, w / 0x100_0000]
  }

  /** The number that digits of any base stand for, the first of them the highest. */
  function Positional(digits: seq<nat>, base: nat): nat {
    if digits == [] then 0 else Positional(digits[..|digits| - 1], base) * base + digits[|digits| - 1]
  }

  /** Little-endian: the bytes from the last to the first are the digits of the word to the base 256. */
  lemma LittleEndian(b0: byte, b1: byte, b2: byte, b3: byte)
    ensures Unpack(b0, b1, b2, b3) == Positional([b3, b2, b1, b0], 0x100)
  {
    assert [b3, b2, b1, b0][..3] == [b3, b2, b1];
    assert [b3, b2, b1][..2] == [b3, b2];
    assert [b3, b2][..1] == [b3] && [b3][..0] == [];
    assert Positional([b3], 0x100) == b3;
    assert Positional([b3, b2], 0x100) == b3 * 0x100 + b2;
    assert Positional([b3, b2, b1], 0x100) == (b3 * 0x100 + b2) * 0x100 + b1;
  }

  lemma PackUnpack(b0: byte, b1: byte, b2: byte, b3: byte)
    ensures Pack(Unpack(b0, b1, b2, b3)) == [b0, b1, b2, b3]
  {
    var w := Unpack(b0, b1, b2, b3);
    assert w / 0x100 == b1 + 0x100 * b2 + 0x1_0000 * b3;
    assert w / 0x1_0000 == b2 + 0x100 * b3;
  }

  type word = w: int | 0 <= w < WORD

  /** The whole words of an input. */
  function Words(input: seq<byte>): seq<word> {
    if |input| < 4 then []
    else [Unpack(input[0], input[1], input[2], input[3])] + Words(input[4..])
  }

  function PackAll(ws: seq<word>): seq<byte> {
    if ws == [] then [] else Pack(ws[0]) + PackAll(ws[1..])
  }

  lemma WordsNext(input: seq<byte>)
    ensures var ws := Words(input);
            if |input| < 4 then ws == []
            else ws != [] && ws[0] == Unpack(input[0], input[1], input[2], input[3]) && ws[1..] == Words(input[4..])
  {}

  /** The input up to its last whole word. */
  function Whole(input: seq<byte>): seq<byte> {
    if |input| < 4 then [] else input[..4] + Whole(input[4..])
  }

  lemma Shorter(n: nat)
    requires n >= 4
    ensures (n - 4) % 4 == n % 4
  {}

  /** It leaves off fewer than four bytes, and none if the length is a multiple of four. */
  lemma {:induction false} WholeIsPrefix(input: seq<byte>)
    ensures Whole(input) <= input && |input| - |Whole(input)| == |input| % 4
    decreases |input|
  {
    if |input| >= 4 {
      WholeIsPrefix(input[4..]);
      Shorter(|input|);
      assert input == input[..4] + input[4..];
    }
  }

  /** Packing the words gives back the input up to its last whole word. */
  lemma {:induction false} PackWords(input: seq<byte>)
    ensures PackAll(Words(input)) == Whole(input)
    decreases |input|
  {
    if |input| >= 4 {
      PackUnpack(input[0], input[1], input[2], input[3]);
      PackWords(input[4..]);
      WordsNext(input);
      assert [input[0], input[1], input[2], input[3]] == input[..4];
    }
  }

  lemma {:induction false} WordsOfWhole(input: seq<byte>)
    ensures Words(Whole(input)) == Words(input)
    decreases |input|
  {
    if |input| >= 4 {
      WordsOfWhole(input[4..]);
      assert Whole(input)[4..] == Whole(input[4..]);
    }
  }

  // ---------------------------------------------------------------- the line

  function Entry(i: nat, w: word): string {
    Digits(i, 16) + "=" + Digits(w, 10)
  }

  /** What is written from item `i` on. */
  function Line(ws: seq<word>, i: nat): string {
    if ws == [] then "\n"
    else (if i > 0 then " " else "") + Entry(i, ws[0]) + Line(ws[1..], i + 1)
  }

  function Complaint(n: nat): string {
    "Error: read " + Digits(n, 10) + " not 4 bytes\n"
  }

  /** The output after one item, which a space parts from the one before. */
  function Appended(out: string, i: nat, w: word): string {
    (if i > 0 then out + " " else out) + Entry(i, w)
  }

  /** What the output has become at the end, from what it is ahead of item `i`. */
  function Written(out: string, ws: seq<word>, i: nat): string
    decreases ws
  {
    if ws == [] then out + "\n" else Written(Appended(out, i, ws[0]), ws[1..], i + 1)
  }

  lemma {:induction false} WrittenIsLine(out: string, ws: seq<word>, i: nat)
    ensures Written(out, ws, i) == out + Line(ws, i)
    decreases ws
  {
    if ws != [] {
      WrittenIsLine(Appended(out, i, ws[0]), ws[1..], i + 1);
      AppendedIsPrefix(out, ws, i);
    }
  }

  lemma AppendedIsPrefix(out: string, ws: seq<word>, i: nat)
    requires ws != []
    ensures Appended(out, i, ws[0]) + Line(ws[1..], i + 1) == out + Line(ws, i)
  {
    var space := if i > 0 then " " else "";
    assert out + "" == out;
    Regroup(out, space, Entry(i, ws[0]), Line(ws[1..], i + 1));
  }

  lemma Regroup(a: string, b: string, c: string, d: string)
    ensures a + b + c + d == a + (b + c + d)
  {}

  /** The text printed for an input. */
  function Text(input: seq<byte>): string {
    Written("", Words(input), 0)
  }

  lemma Remainder(n: nat, words: nat, rest: nat)
    requires n == 4 * words + rest && rest < 4
    ensures n % 4 == rest
  {}

  /** The program.  The input ends where a read comes up short. */
  method Print(input: seq<byte>) returns (out: string, err: string, code: int)
    ensures out == Text(input)
    ensures if |input| % 4 == 0 then err == "" && code == 0 else err == Complaint(|input| % 4) && code == 1
  {
    var i, rest := 0, input;
    out := "";
    while true
      invariant i >= 0 && |input| == 4 * i + |rest|
      invariant Written(out, Words(rest), i) == Text(input)
      decreases |rest|
    {
      WordsNext(rest);
      var buf := rest[..if |rest| < 4 then |rest| else 4];
      if |buf| == 0 {
        break;
      } else if |buf| != 4 {
        Remainder(|input|, i, |rest|);
        return out + "\n", Complaint(|buf|), 1;
      }
      if i > 0 {
        out := out + " ";
      }
      out := out + Entry(i, Unpack(buf[0], buf[1], buf[2], buf[3]));
      i, rest := i + 1, rest[4..];
    }
    Remainder(|input|, i, |rest|);
    return out + "\n", "", 0;
  }

  // ---------------------------------------------------------------- the decoder

  /** Reads the items of a line from item `i` on. */
  function Decode(text: string, i: nat): Option<seq<word>>
    decreases |text|, 1
  {
    if text == "\n" then Some([])
    else if i == 0 then DecodeItem(text, i)
    else if text == "" || text[0] != ' ' then None
    else DecodeItem(text[1..], i)
  }

  function DecodeItem(text: string, i: nat): Option<seq<word>>
    decreases |text|, 0
  {
    var n := Span(text);
    if n == |text| || text[n] != '=' || Number(text[..n], 16) != Some(i) then None
    else DecodeValue(text[n + 1..], i)
  }

  function DecodeValue(text: string, i: nat): Option<seq<word>>
    decreases |text|, 2
  {
    var m := Span(text);
    match Number(text[..m], 10)
    case None => None
    case Some(w) => if w >= WORD then None else Prepend(w, Decode(text[m..], i + 1))
  }

  function Prepend(w: word, ws: Option<seq<word>>): Option<seq<word>> {
    match ws
    case None => None
    case Some(more) => Some([w] + more)
  }

  lemma DecodesValue(w: word, tail: string, i: nat)
    requires tail != "" && DigitValue(tail[0]) >= 16
    ensures DecodeValue(Digits(w, 10) + tail, i) == Prepend(w, Decode(tail, i + 1))
  {
    var value := Digits(w, 10);
    NumberOfDigits(w, 10);
    SpanStops(value, tail);
    assert (value + tail)[..|value|] == value && (value + tail)[|value|..] == tail;
  }

  lemma AroundSign(index: string, rest: string)
    ensures (index + ("=" + rest))[..|index|] == index && (index + ("=" + rest))[|index| + 1..] == rest
  {}

  /** The decoder takes the next item off the line. */
  lemma DecodesItem(i: nat, w: word, tail: string)
    requires tail != "" && DigitValue(tail[0]) >= 16
    ensures DecodeItem(Entry(i, w) + tail, i) == Prepend(w, Decode(tail, i + 1))
  {
    var index, rest := Digits(i, 16), Digits(w, 10) + tail;
    NumberOfDigits(i, 16);
    assert Entry(i, w) + tail == index + ("=" + rest);
    SpanStops(index, "=" + rest);
    AroundSign(index, rest);
    DecodesValue(w, tail, i);
  }

  lemma LineHead(ws: seq<word>, i: nat)
    requires i > 0
    ensures Line(ws, i) != "" && DigitValue(Line(ws, i)[0]) >= 16
  {}

  lemma EntryIsLong(i: nat, w: word)
    ensures |Entry(i, w)| >= 2
  {
    NumberOfDigits(i, 16);
  }

  lemma DecodesHead(text: string, item: string, i: nat)
    requires |item| >= 2 && text == if i > 0 then " " + item else item
    ensures Decode(text, i) == DecodeItem(item, i)
  {
    assert i > 0 ==> text[1..] == item;
  }

  lemma LineItem(ws: seq<word>, i: nat, item: string)
    requires ws != [] && item == Entry(i, ws[0]) + Line(ws[1..], i + 1)
    ensures Line(ws, i) == if i > 0 then " " + item else item
  {}

  lemma DecodesLine(ws: seq<word>, i: nat)
    requires ws != []
    ensures Decode(Line(ws, i), i) == Prepend(ws[0], Decode(Line(ws[1..], i + 1), i + 1))
  {
    var tail := Line(ws[1..], i + 1);
    LineHead(ws[1..], i + 1);
    DecodesItem(i, ws[0], tail);
    EntryIsLong(i, ws[0]);
    LineItem(ws, i, Entry(i, ws[0]) + tail);
    DecodesHead(Line(ws, i), Entry(i, ws[0]) + tail, i);
  }

  /** Decoding a line gives back the words, for any number of them. */
  lemma {:induction false} RoundTrip(ws: seq<word>, i: nat)
    ensures Decode(Line(ws, i), i) == Some(ws)
  {
    if ws != [] {
      RoundTrip(ws[1..], i + 1);
      DecodesLine(ws, i);
      assert [ws[0]] + ws[1..] == ws;
    }
  }

  lemma ValueSplits(text: string, i: nat, ws: seq<word>) returns (tail: string)
    requires DecodeValue(text, i) == Some(ws)
    ensures ws != [] && |tail| <= |text| && text == Digits(ws[0], 10) + tail && Decode(tail, i + 1) == Some(ws[1..])
  {
    var m := Span(text);
    var value := text[..m];
    tail := text[m..];
    var w := Number(value, 10).value;
    OnlyDigits(value, w, 10);
    assert ws == [w] + Decode(tail, i + 1).value;
    assert text == value + tail;
  }

  /** What an item starts with, and what comes after it. */
  lemma ItemSplits(text: string, i: nat, ws: seq<word>) returns (tail: string)
    requires DecodeItem(text, i) == Some(ws)
    ensures ws != [] && |tail| < |text| && text == Entry(i, ws[0]) + tail && Decode(tail, i + 1) == Some(ws[1..])
  {
    var n := Span(text);
    OnlyDigits(text[..n], i, 16);
    tail := ValueSplits(text[n + 1..], i, ws);
    AroundItem(text, n, Digits(ws[0], 10), tail);
  }

  lemma AroundItem(text: string, n: nat, value: string, tail: string)
    requires n < |text| && text[n] == '=' && text[n + 1..] == value + tail
    ensures text == text[..n] + "=" + value + tail
  {}

  /** The line is the only text that the decoder takes for its words. */
  lemma {:induction false} OnlyLine(text: string, i: nat, ws: seq<word>)
    ensures Decode(text, i) == Some(ws) <==> text == Line(ws, i)
    decreases |text|
  {
    RoundTrip(ws, i);
    if Decode(text, i) == Some(ws) && text != "\n" {
      var item := if i == 0 then text else text[1..];
      assert DecodeItem(item, i) == Some(ws);
      var tail := ItemSplits(item, i, ws);
      OnlyLine(tail, i + 1, ws[1..]);
      LineItem(ws, i, item);
      assert i > 0 ==> text == " " + item;
    }
  }

  /** The printed text is the only one that decodes to the words of the input. */
  lemma OnlyText(input: seq<byte>, text: string)
    ensures Decode(text, 0) == Some(Words(input)) <==> text == Text(input)
  {
    OnlyLine(text, 0, Words(input));
    WrittenIsLine("", Words(input), 0);
    assert "" + Line(Words(input), 0) == Line(Words(input), 0);
  }

  lemma ExampleDigits()
    ensures Digits(256, 10) == "256" && Digits(26, 16) == "1a"
  {
    assert Digits(25, 10) == Digits(2, 10) + "5" == "25";
    assert Digits(256, 10) == Digits(25, 10) + "6";
    assert Digits(26, 16) == Digits(1, 16) + "a";
  }

  lemma ExampleWords()
    ensures Words([1, 0, 0, 0, 0, 1, 0, 0]) == [1, 256]
  {
    var input: seq<byte> := [1, 0, 0, 0, 0, 1, 0, 0];
    WordsNext(input);
    WordsNext(input[4..]);
    WordsNext(input[4..][4..]);
    assert input[4..] == [0, 1, 0, 0];
  }

  /** The line of one item. */
  lemma LineOfOne(w: word, i: nat)
    requires i > 0
    ensures Line([w], i) == " " + Entry(i, w) + "\n"
  {
    assert [w][1..] == [];
  }

  /** Values are decimal, indices are hexadecimal, and the first byte of a word is its lowest. */
  lemma PrintsExample()
    ensures Text([1, 0, 0, 0, 0, 1, 0, 0]) == "0=1 1=256\n"
    ensures Line([7], 26) == " 1a=7\n"
    ensures Complaint(3) == "Error: read 3 not 4 bytes\n"
  {
    ExampleDigits();
    ExampleWords();
    LineOfOne(7, 26);
    LineOfOne(256, 1);
    assert Entry(26, 7) == "1a=7" && Entry(1, 256) == "1=256" && Entry(0, 1) == "0=1";
    var ws: seq<word> := [1, 256];
    assert ws[1..] == [256];
    WrittenIsLine("", ws, 0);
    assert Line(ws, 0) == "" + Entry(0, 1) + Line([256], 1);
  }

  lemma DecodesText(input: seq<byte>)
    ensures Decode(Text(input), 0) == Some(Words(input))
  {
    RoundTrip(Words(input), 0);
    WrittenIsLine("", Words(input), 0);
    assert "" + Line(Words(input), 0) == Line(Words(input), 0);
  }

  /** From the text the decoder gives back the input byte for byte, but for a partial word at the end. */
  lemma DecodesInput(input: seq<byte>)
    ensures var ws := Decode(Text(input), 0);
            ws.Some? && PackAll(ws.value) == Whole(input)
  {
    DecodesText(input);
    PackWords(input);
  }

  /** Two inputs print the same text exactly when they are the same up to their last whole word. */
  lemma Unambiguous(a: seq<byte>, b: seq<byte>)
    ensures Text(a) == Text(b) <==> Whole(a) == Whole(b)
    ensures |a| % 4 == 0 && |b| % 4 == 0 ==> (Text(a) == Text(b) <==> a == b)
  {
    DecodesInput(a);
    DecodesInput(b);
    WordsOfWhole(a);
    WordsOfWhole(b);
    WholeIsPrefix(a);
    WholeIsPrefix(b);
  }
}
