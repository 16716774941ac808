/** The wire format of the Redis limiter: the command printer and the reply parser. */
module Resp {
  import opened Basics

  type byte = x: int | 0 <= x < 256
  type Bytes = seq<byte>

  const CR: byte := 13
  const LF: byte := 10
  const CRLF: Bytes := [CR, LF]
  const PLUS: byte := 43
  const MINUS: byte := 45
  const DOLLAR: byte := 36
  const STAR: byte := 42
  const COLON: byte := 58
  const MAX_INT64 := 0x7fff_ffff_ffff_ffff
  const MIN_INT64 := -0x8000_0000_0000_0000

  // A bulk or simple string, an integer, a null, or an array.
  datatype Value = Str(bytes: Bytes) | Int(n: int) | Nil | Arr(items: seq<Value>)

  // A value and the bytes left after it; the client reports every failure as an error.
  datatype Parsed<+T> = Got(value: T, rest: Bytes) | Error

  // ---- Decimal numbers ----

  function Digits(n: nat): Bytes {
    if n < 10 then [48 + n] else Digits(n / 10) + [48 + n % 10]
  }

  function Itoa(n: int): Bytes {
    if n < 0 then [MINUS] + Digits(-n) else Digits(n)
  }

  function DigitsValue(s: Bytes): Option<nat> {
    if s == [] then None
    else if !(48 <= s[|s| - 1] <= 57) then None
    else if |s| == 1 then Some(s[0] - 48)
    else
      var high := DigitsValue(s[..|s| - 1]);
      if high.None? then None else Some(10 * high.value + (s[|s| - 1] - 48))
  }

  /** An optional sign and at least one digit, within 64 bits. */
  function Atoi(s: Bytes): Option<int> {
    var digits := if s != [] && (s[0] == PLUS || s[0] == MINUS) then s[1..] else s;
    var m := DigitsValue(digits);
    if m.None? then None else
      var k: int := m.value;
      var n := if s[0] == MINUS then -k else k;
      if MIN_INT64 <= n <= MAX_INT64 then Some(n) else None
  }

  lemma {:induction false} DigitsRoundTrip(n: nat)
    ensures DigitsValue(Digits(n)) == Some(n)
    ensures Digits(n) != [] && forall k :: 0 <= k < |Digits(n)| ==> 48 <= Digits(n)[k] <= 57
  {
    if n >= 10 {
      DigitsRoundTrip(n / 10);
      assert Digits(n)[..|Digits(n)| - 1] == Digits(n / 10);
    }
  }

  lemma AtoiItoa(n: int)
    requires MIN_INT64 <= n <= MAX_INT64
    ensures Atoi(Itoa(n)) == Some(n)
    ensures forall k :: 0 <= k < |Itoa(n)| ==> Itoa(n)[k] != LF && Itoa(n)[k] != CR
  {
    DigitsRoundTrip(if n < 0 then -n else n);
    if n < 0 {
      assert Itoa(n)[1..] == Digits(-n);
    }
  }

  // ---- The parser ----

  /** Up to the first LF, which it needs; a CR before it is dropped. */
  function ParseLine(bs: Bytes): (r: Parsed<Bytes>)
    ensures r.Got? ==> |r.rest| < |bs|
  {
    if LF !in bs then Error else
      var k := IndexOf(bs, LF);
      Got(if k > 0 && bs[k - 1] == CR then bs[..k - 1] else bs[..k], bs[k + 1..])
  }

  function IndexOf(bs: Bytes, b: byte): (k: nat)
    requires b in bs
    ensures k < |bs| && bs[k] == b && b !in bs[..k]
  {
    if bs[0] == b then 0 else 1 + IndexOf(bs[1..], b)
  }

  function ParseNumber(bs: Bytes): (r: Parsed<int>)
    ensures r.Got? ==> |r.rest| < |bs|
  {
    var line := ParseLine(bs);
    if line.Error? || Atoi(line.value).None? then Error else Got(Atoi(line.value).value, line.rest)
  }

  function Parse(bs: Bytes): (r: Parsed<Value>)
    ensures r.Got? ==> |r.rest| < |bs|
    decreases |bs|, 0
  {
    if bs == [] then Error
    else if bs[0] == PLUS then
      var line := ParseLine(bs[1..]);
      if line.Error? then Error else Got(Str(line.value), line.rest)
    else if bs[0] == COLON then
      var n := ParseNumber(bs[1..]);
      if n.Error? then Error else Got(Int(n.value), n.rest)
    else if bs[0] == DOLLAR then
      var n := ParseNumber(bs[1..]);
      if n.Error? then Error
      else if n.value < 0 then Got(Nil, n.rest)
      else if |n.rest| < n.value + 2 then Error
      else Got(Str(n.rest[..n.value]), n.rest[n.value + 2..])
    else if bs[0] == STAR then
      var n := ParseNumber(bs[1..]);
      if n.Error? then Error
      else if n.value < 0 then Got(Nil, n.rest)
      else
        var items := ParseMany(n.rest, n.value);
        if items.Error? then Error else Got(Arr(items.value), items.rest)
    else Error
  }

  /** `n` values, as long as the bytes last. */
  function ParseMany(bs: Bytes, n: nat): (r: Parsed<seq<Value>>)
    ensures r.Got? ==> |r.rest| <= |bs| && |r.value| == n
    decreases |bs|, 1
  {
    if n == 0 then Got([], bs) else
      var first := Parse(bs);
      if first.Error? then Error else
        var others := ParseMany(first.rest, n - 1);
        if others.Error? then Error else Got([first.value] + others.value, others.rest)
  }

  class Reader {
    var buf: Bytes

    constructor (bytes: Bytes)
      ensures buf == bytes
    {
      buf := bytes;
    }

    /** ReadString('\n') and the two suffix trims. */
    method ReadLine() returns (r: Option<Bytes>)
      modifies this
      ensures r.Some? <==> ParseLine(old(buf)).Got?
      ensures r.Some? ==> ParseLine(old(buf)) == Got(r.value, buf)
    {
      if LF !in buf {
        buf := [];
        return None;
      }
      var k := IndexOf(buf, LF);
      var line := buf[..k + 1];
      buf := buf[k + 1..];
      assert line[..k] == old(buf)[..k];
      line := line[..k];
      if line != [] && line[|line| - 1] == CR {
        line := line[..k - 1];
        assert line == old(buf)[..k - 1];
      }
      r := Some(line);
    }

    method ReadNumber() returns (r: Option<int>)
      modifies this
      ensures r.Some? <==> ParseNumber(old(buf)).Got?
      ensures r.Some? ==> ParseNumber(old(buf)) == Got(r.value, buf)
    {
      var line := ReadLine();
      if line.None? { return None; }
      r := Atoi(line.value);
    }

    /** Reads one value and advances past it. */
    method ReadRESP() returns (r: Option<Value>)
      modifies this
      ensures r.Some? <==> Parse(old(buf)).Got?
      ensures r.Some? ==> Parse(old(buf)) == Got(r.value, buf)
      decreases |buf|, 0
    {
      if buf == [] { return None; }
      var prefix := buf[0];
      buf := buf[1..];
      if prefix == PLUS {
        var line := ReadLine();
        return if line.None? then None else Some(Str(line.value));
      }
      if prefix != COLON && prefix != DOLLAR && prefix != STAR {
        return None;
      }
      var n := ReadNumber();
      if n.None? { return None; }
      if prefix == COLON { return Some(Int(n.value)); }
      if n.value < 0 { return Some(Nil); }
      if prefix == DOLLAR {
        if |buf| < n.value + 2 { return None; }
        r := Some(Str(buf[..n.value]));
        buf := buf[n.value + 2..];
        return;
      }
      var values := ReadItems(n.value);
      r := if values.None? then None else Some(Arr(values.value));
    }

    /** `n` values, one after the other. */
    method ReadItems(n: nat) returns (r: Option<seq<Value>>)
      modifies this
      ensures r.Some? <==> ParseMany(old(buf), n).Got?
      ensures r.Some? ==> ParseMany(old(buf), n) == Got(r.value, buf)
      decreases |buf|, 2
    {
      var values: seq<Value> := [];
      ghost var all := ParseMany(buf, n);
      PrependNothing(all);
      for i := 0 to n
        invariant |values| == i && |buf| <= |old(buf)|
        invariant all == Prepend(values, ParseMany(buf, n - i))
      {
        var v := ReadItem(values, n - i);
        if v.None? { return None; }
        values := values + [v.value];
      }
      NoneLeft(values, buf);
      r := Some(values);
    }

    /** The next of `left` items that follow `values`. */
    method ReadItem(ghost values: seq<Value>, ghost left: nat) returns (v: Option<Value>)
      requires left > 0
      modifies this
      ensures v.None? ==> ParseMany(old(buf), left).Error?
      ensures v.Some? ==>
                && |buf| <= |old(buf)|
                && Prepend(values, ParseMany(old(buf), left)) == Prepend(values + [v.value], ParseMany(buf, left - 1))
      decreases |buf|, 1
    {
      ParseManyStep(buf, left);
      v := ReadRESP();
      if v.Some? {
        PrependTwice(values, v.value, ParseMany(buf, left - 1));
      }
    }
  }

  lemma NoneLeft(values: seq<Value>, bs: Bytes)
    ensures Prepend(values, ParseMany(bs, 0)) == Got(values, bs)
  {
    assert values + [] == values;
  }

  lemma ParseManyStep(bs: Bytes, n: nat)
    requires n > 0
    ensures ParseMany(bs, n) ==
              if Parse(bs).Error? then Error else Prepend([Parse(bs).value], ParseMany(Parse(bs).rest, n - 1))
  {}

  lemma PrependNothing(r: Parsed<seq<Value>>)
    ensures Prepend([], r) == r
  {
    assert r.Got? ==> [] + r.value == r.value;
  }

  lemma PrependTwice(values: seq<Value>, v: Value, r: Parsed<seq<Value>>)
    ensures Prepend(values, Prepend([v], r)) == Prepend(values + [v], r)
  {
    if r.Got? {
      assert values + ([v] + r.value) == values + [v] + r.value;
    }
  }

  ghost function Prepend(values: seq<Value>, r: Parsed<seq<Value>>): Parsed<seq<Value>> {
    if r.Error? then Error else Got(values + r.value, r.rest)
  }

  // ---- The printer ----

  function Bulk(part: Bytes): Bytes {
    [DOLLAR] + Itoa(|part|) + CRLF + part + CRLF
  }

  /** A reply as a server prints it. */
  function Print(v: Value): Bytes
    decreases v, 0
  {
    match v
    case Str(bytes) => Bulk(bytes)
    case Int(n) => [COLON] + Itoa(n) + CRLF
    case Nil => [DOLLAR] + Itoa(-1) + CRLF
    case Arr(items) => [STAR] + Itoa(|items|) + CRLF + PrintAll(items)
  }

  function PrintAll(items: seq<Value>): Bytes
    decreases items, 1
  {
    if items == [] then [] else Print(items[0]) + PrintAll(items[1..])
  }

  function Strings(parts: seq<Bytes>): seq<Value> {
    seq(|parts|, k requires 0 <= k < |parts| => Str(parts[k]))
  }

  /** Lengths and integers fit 64 bits. */
  predicate Representable(v: Value)
    decreases v, 0
  {
    match v
    case Str(bytes) => |bytes| <= MAX_INT64
    case Int(n) => MIN_INT64 <= n <= MAX_INT64
    case Nil => true
    case Arr(items) => |items| <= MAX_INT64 && forall k :: 0 <= k < |items| ==> Representable(items[k])
  }

  method EncodeCommand(parts: seq<Bytes>) returns (b: Bytes)
    ensures b == Print(Arr(Strings(parts)))
  {
    b := [STAR] + Itoa(|parts|) + CRLF;
    ghost var head := b;
    for k := 0 to |parts|
      invariant b == head + PrintAll(Strings(parts[..k]))
    {
      PrintAllAppend(Strings(parts[..k]), Str(parts[k]));
      assert Strings(parts[..k + 1]) == Strings(parts[..k]) + [Str(parts[k])];
      ghost var written, printed := b, PrintAll(Strings(parts[..k]));
      b := b + [DOLLAR];
      b := b + Itoa(|parts[k]|);
      b := b + CRLF;
      b := b + parts[k];
      b := b + CRLF;
      AppendBulk(written, parts[k]);
      Associative(head, printed, Bulk(parts[k]));
    }
    assert parts[..|parts|] == parts;
    assert |Strings(parts)| == |parts|;
  }

  lemma AppendBulk(b: Bytes, part: Bytes)
    ensures b + [DOLLAR] + Itoa(|part|) + CRLF + part + CRLF == b + Bulk(part)
  {
    var n := Itoa(|part|);
    assert b + [DOLLAR] + n + CRLF + part + CRLF == b + ([DOLLAR] + n + CRLF + part + CRLF);
  }

  lemma Associative(a: Bytes, b: Bytes, c: Bytes)
    ensures a + b + c == a + (b + c)
  {}

  lemma {:induction false} PrintAllAppend(items: seq<Value>, v: Value)
    ensures PrintAll(items + [v]) == PrintAll(items) + Print(v)
  {
    if items == [] {
      assert items + [v] == [v] && [v][1..] == [];
    } else {
      assert (items + [v])[1..] == items[1..] + [v];
      PrintAllAppend(items[1..], v);
    }
  }

  // ---- The bytes on the wire ----

  /** The printed forms: `*` and the count, `$` and the length, `:` and the number, a minus sign and one
      for null, each closed by carriage return and line feed; numbers in decimal. */
  lemma PrintSpelledOut(v: Value)
    ensures match v
            case Str(bytes) => Print(v) == [0x24] + Itoa(|bytes|) + [0x0D, 0x0A] + bytes + [0x0D, 0x0A]
            case Int(n) => Print(v) == [0x3A] + Itoa(n) + [0x0D, 0x0A]
            case Nil => Print(v) == [0x24, 0x2D, 0x31, 0x0D, 0x0A]
            case Arr(items) => Print(v) == [0x2A] + Itoa(|items|) + [0x0D, 0x0A] + PrintAll(items)
  {
    if v.Nil? {
      assert Itoa(-1) == [0x2D] + Digits(1) && Digits(1) == [0x31];
    }
  }

  lemma ItoaSpelledOut(n: int)
    ensures 0 <= n < 10 ==> Itoa(n) == ["0123456789"[n] as int]
    ensures n >= 10 ==> Itoa(n) == Itoa(n / 10) + ["0123456789"[n % 10] as int]
    ensures n < 0 ==> Itoa(n) == ['-' as int] + Itoa(-n)
  {
    assert forall d :: 0 <= d < 10 ==> "0123456789"[d] as int == 48 + d;
  }

  /** The command `PING` as its bytes. */
  lemma PingOnTheWire()
    ensures Print(Arr([Str([0x50, 0x49, 0x4E, 0x47])]))
            == [0x2A, 0x31, 0x0D, 0x0A, 0x24, 0x34, 0x0D, 0x0A, 0x50, 0x49, 0x4E, 0x47, 0x0D, 0x0A]
  {
    var ping := Str([0x50, 0x49, 0x4E, 0x47]);
    assert [ping][1..] == [];
    assert PrintAll([ping]) == Print(ping) + PrintAll([]);
  }

  /** The replies that are not printed by a client: a simple string, and an error or any other first
      byte, which the client reports as an error. */
  lemma OtherReplies(line: Bytes, rest: Bytes, first: byte)
    requires 0x0A !in line && (line != [] ==> line[|line| - 1] != 0x0D)
    ensures Parse([0x2B] + line + [0x0D, 0x0A] + rest) == Got(Str(line), rest)
    ensures first != 0x2B && first != 0x3A && first != 0x24 && first != 0x2A ==> Parse([first] + rest).Error?
  {
    var bs := [0x2B] + line + [0x0D, 0x0A] + rest;
    var tail := bs[1..];
    assert tail == line + [0x0D, 0x0A] + rest;
    var k := |line| + 1;
    assert tail[k] == LF && forall i :: 0 <= i < k ==> tail[i] != LF;
    assert IndexOf(tail, LF) == k;
    assert tail[..k - 1] == line && tail[k + 1..] == rest;
  }

  // ---- Round trips ----

  lemma ParseNumberOfItoa(n: int, rest: Bytes)
    requires MIN_INT64 <= n <= MAX_INT64
    ensures ParseNumber(Itoa(n) + CRLF + rest) == Got(n, rest)
  {
    AtoiItoa(n);
    var bs := Itoa(n) + CRLF + rest;
    var k := |Itoa(n)| + 1;
    assert bs[k] == LF;
    forall i | 0 <= i < k ensures bs[i] != LF {
      assert bs[i] == if i < |Itoa(n)| then Itoa(n)[i] else CR;
    }
    assert IndexOf(bs, LF) == k;
    assert bs[..k - 1] == Itoa(n) && bs[k + 1..] == rest;
  }

  lemma ParseHeader(prefix: byte, n: int, after: Bytes)
    requires MIN_INT64 <= n <= MAX_INT64
    ensures var bs := [prefix] + Itoa(n) + CRLF + after;
            bs[0] == prefix && ParseNumber(bs[1..]) == Got(n, after)
  {
    ParseNumberOfItoa(n, after);
    var bs := [prefix] + Itoa(n) + CRLF + after;
    assert bs[1..] == Itoa(n) + CRLF + after;
  }

  lemma BulkThen(part: Bytes, rest: Bytes)
    ensures Bulk(part) + rest == [DOLLAR] + Itoa(|part|) + CRLF + (part + CRLF + rest)
  {
    var n := Itoa(|part|);
    assert [DOLLAR] + n + CRLF + part + CRLF + rest == [DOLLAR] + n + CRLF + (part + CRLF + rest);
  }

  lemma ParseBulk(part: Bytes, rest: Bytes)
    requires |part| <= MAX_INT64
    ensures Parse(Bulk(part) + rest) == Got(Str(part), rest)
  {
    var after := part + CRLF + rest;
    ParseHeader(DOLLAR, |part|, after);
    BulkThen(part, rest);
    assert after[..|part|] == part && after[|part| + 2..] == rest;
  }

  /** For every representable value, nested arrays, integers, nulls and any bytes (line ends
      included): parsing what was printed gives the value back and leaves what follows. */
  lemma {:induction false} ParsePrint(v: Value, rest: Bytes)
    requires Representable(v)
    ensures Parse(Print(v) + rest) == Got(v, rest)
    decreases v, 0
  {
    match v {
      case Str(bytes) => ParseBulk(bytes, rest);
      case Int(n) => ParseHeader(COLON, n, rest);
      case Nil => ParseHeader(DOLLAR, -1, rest);
      case Arr(items) =>
        ParsePrintAll(items, rest);
        ParseArray(items, PrintAll(items), rest);
    }
  }

  lemma ArrayOf(bs: Bytes, items: seq<Value>, after: Bytes, rest: Bytes)
    requires bs != [] && bs[0] == STAR && ParseNumber(bs[1..]) == Got(|items|, after)
    requires ParseMany(after, |items|) == Got(items, rest)
    ensures Parse(bs) == Got(Arr(items), rest)
  {}

  lemma ParseArray(items: seq<Value>, body: Bytes, rest: Bytes)
    requires |items| <= MAX_INT64 && ParseMany(body + rest, |items|) == Got(items, rest)
    ensures Parse([STAR] + Itoa(|items|) + CRLF + body + rest) == Got(Arr(items), rest)
  {
    ParseHeader(STAR, |items|, body + rest);
    Associative([STAR] + Itoa(|items|) + CRLF, body, rest);
    var bs := [STAR] + Itoa(|items|) + CRLF + (body + rest);
    assert bs[0] == STAR && ParseNumber(bs[1..]) == Got(|items|, body + rest);
    ArrayOf(bs, items, body + rest, rest);
  }

  lemma {:induction false} ParsePrintAll(items: seq<Value>, rest: Bytes)
    requires forall k :: 0 <= k < |items| ==> Representable(items[k])
    ensures ParseMany(PrintAll(items) + rest, |items|) == Got(items, rest)
    decreases items, 1
  {
    if items == [] {
      assert PrintAll(items) + rest == rest;
    } else {
      var after := PrintAll(items[1..]) + rest;
      Associative(Print(items[0]), PrintAll(items[1..]), rest);
      ParsePrint(items[0], after);
      ParsePrintAll(items[1..], rest);
      assert [items[0]] + items[1..] == items;
    }
  }

  /** What a client sends is read back by its own parser, part by part. */
  lemma CommandRoundTrip(parts: seq<Bytes>, rest: Bytes)
    requires |parts| <= MAX_INT64 && forall k :: 0 <= k < |parts| ==> |parts[k]| <= MAX_INT64
    ensures Parse(Print(Arr(Strings(parts))) + rest) == Got(Arr(Strings(parts)), rest)
  {
    ParsePrint(Arr(Strings(parts)), rest);
  }
}
