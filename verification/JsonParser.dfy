/** The recursive-descent parser: one cursor over the bytes, proved to compute `Json`'s meaning. */
module JsonParser {
  import opened Prelude
  import opened Wire
  import opened Json
  import Utf8

  /** `read` with what was already collected in front of it. */
  ghost function Prepend<T>(collected: seq<T>, read: Parsed<seq<T>>): Parsed<seq<T>> {
    match read
    case None => None
    case Some((more, rest)) => Some((collected + more, rest))
  }

  /** One more item collected in front of the rest of the list. */
  lemma ItemsStep(ft: FloatText, bs: seq<byte>, depth: nat, items: seq<Value>)
    ensures var all, read := Prepend(items, TakeItems(ft, bs, depth)), TakeValue(ft, SkipSpace(bs), depth + 1);
      if read.None? then all.None?
      else
        var (value, rest) := (read.value.0, SkipSpace(read.value.1));
        if At(rest, COMMA) then all == Prepend(items + [value], TakeItems(ft, rest[1..], depth))
        else if At(rest, CLOSE_BRACKET) then all == Some((items + [value], rest[1..]))
        else all.None?
  {
    hide SkipSpace, TakeValue;
    var read := TakeValue(ft, SkipSpace(bs), depth + 1);
    if read.Some? && At(SkipSpace(read.value.1), COMMA) {
      var more := TakeItems(ft, SkipSpace(read.value.1)[1..], depth);
      assert more.Some? ==> items + ([read.value.0] + more.value.0) == (items + [read.value.0]) + more.value.0;
    }
  }

  /** One more member collected in front of the rest of the list. */
  lemma EntriesStep(ft: FloatText, bs: seq<byte>, depth: nat, entries: seq<Entry>)
    ensures var all, read := Prepend(entries, TakeEntries(ft, bs, depth)), TakeMember(ft, bs, depth);
      if read.None? then all.None?
      else
        var (entry, rest) := (read.value.0, read.value.1);
        if At(rest, COMMA) then all == Prepend(entries + [entry], TakeEntries(ft, rest[1..], depth))
        else if At(rest, CLOSE_BRACE) then all == Some((entries + [entry], rest[1..]))
        else all.None?
  {
    hide TakeMember;
    var read := TakeMember(ft, bs, depth);
    if read.Some? && At(read.value.1, COMMA) {
      var more := TakeEntries(ft, read.value.1[1..], depth);
      assert more.Some? ==> entries + ([read.value.0] + more.value.0) == (entries + [read.value.0]) + more.value.0;
    }
  }

  lemma PrependNothing<T>(read: Parsed<seq<T>>)
    ensures Prepend([], read) == read
  {
    if read.Some? {
      assert [] + read.value.0 == read.value.0;
    }
  }

  class Parser {
    const floats: FloatText
    const bytes: seq<byte>
    var pos: nat

    ghost predicate Valid()
      reads this
    {
      pos <= |bytes|
    }

    ghost function Rest(): seq<byte>
      requires Valid()
      reads this
    {
      bytes[pos..]
    }

    constructor (floats: FloatText, bytes: seq<byte>)
      ensures Valid() && Rest() == bytes && this.floats == floats && this.bytes == bytes
    {
      this.floats := floats;
      this.bytes := bytes;
      pos := 0;
    }

    function Peek(): (r: Option<byte>)
      requires Valid()
      reads this
      ensures r == if Rest() == [] then None else Some(Rest()[0])
    {
      if pos < |bytes| then Some(bytes[pos]) else None
    }

    method Take() returns (r: Option<byte>)
      requires Valid()
      modifies this
      ensures Valid() && Follows(r, Rest(), TakeU8(old(Rest())))
      ensures r.None? ==> pos == old(pos)
      ensures r.Some? ==> pos == old(pos) + 1
    {
      r := Peek();
      if r.Some? {
        pos := pos + 1;
      }
    }

    method SkipWhitespace()
      requires Valid()
      modifies this
      ensures Valid() && pos >= old(pos) && Rest() == SkipSpace(old(Rest()))
    {
      while Peek().Some? && IsSpace(Peek().value)
        invariant Valid() && pos >= old(pos) && SkipSpace(Rest()) == SkipSpace(old(Rest()))
        decreases |bytes| - pos
      {
        pos := pos + 1;
      }
    }

    method Literal(word: seq<byte>) returns (found: bool)
      requires Valid()
      modifies this
      ensures Valid() && pos >= old(pos)
      ensures found <==> word <= old(Rest())
      ensures Rest() == if found then old(Rest())[|word|..] else old(Rest())
    {
      found := word <= bytes[pos..];
      if found {
        pos := pos + |word|;
      }
    }

    method Hex4() returns (r: Option<nat>)
      requires Valid()
      modifies this
      ensures Valid() && Follows(r, Rest(), TakeHex4(old(Rest())))
    {
      ghost var all := Rest();
      var value: nat := 0;
      var i: nat := 0;
      while i < 4
        invariant i <= 4 && i <= |all| && Valid() && Rest() == all[i..]
        invariant HexPrefix(all, i) == Some(value)
      {
        var digit := Take();
        if digit == None {
          return None;
        }
        var nibble := HexValue(digit.value);
        if nibble == None {
          assert HexValue(all[i]).None? && (i == 0 || i == 1 || i == 2 || i == 3);
          return None;
        }
        value := value * 0x10 + nibble.value;
        i := i + 1;
      }
      HexPrefixFour(all);
      return Some(value);
    }

    method CodeUnit() returns (r: Option<char>)
      requires Valid()
      modifies this
      ensures Valid() && Follows(r, Rest(), TakeCodeUnit(old(Rest())))
    {
      hide TakeHex4;
      var first :- Hex4();
      if IsHighSurrogate(first) {
        var slash := Take();
        if slash != Some(BACKSLASH) {
          return None;
        }
        var unit := Take();
        if unit != Some(0x75) {
          return None;
        }
        var second :- Hex4();
        if !IsLowSurrogate(second) {
          return None;
        }
        return Scalar(PairScalar(first, second));
      } else {
        return Scalar(first);
      }
    }

    /** Everything from the cursor on a backslash to the end of the escape it starts. */
    method Escape() returns (r: Option<char>)
      requires Valid() && At(Rest(), BACKSLASH)
      modifies this
      ensures Valid() && Follows(r, Rest(), TakeEscape(old(Rest())))
    {
      hide TakeCodeUnit, ShortEscape;
      var _ := Take();
      var escape :- Take();
      if escape == 0x75 {
        r := CodeUnit();
      } else {
        return ShortEscape(escape);
      }
    }

    /** Re-reads the whole UTF-8 sequence the byte under the cursor starts. */
    method Raw() returns (r: Option<string>)
      requires Valid() && Rest() != []
      modifies this
      ensures Valid() && Follows(r, Rest(), TakeRaw(old(Rest())))
    {
      hide Utf8.Decode;
      var start := pos;
      var width :- RawWidth(bytes[start]);
      if |bytes| - start < width {
        return None;
      }
      pos := start + width;
      assert bytes[start..][..width] == bytes[start..pos];
      return Utf8.Decode(bytes[start..pos]);
    }

    method ReadString() returns (r: Option<string>)
      requires Valid() && At(Rest(), QUOTE)
      modifies this
      ensures Valid() && Follows(r, Rest(), TakeString(old(Rest())))
    {
      hide TakeEscape, TakeRaw;
      ghost var meaning := TakeString(Rest());
      var _ := Take();
      var out := [];
      PrependNothing(meaning);
      while true
        invariant Valid() && meaning == Prepend(out, TakeChars(Rest()))
        decreases |bytes| - pos
      {
        var byte := Peek();
        if byte == None {
          return None;
        } else if byte.value == QUOTE {
          var _ := Take();
          assert out + [] == out;
          return Some(out);
        } else if byte.value == BACKSLASH {
          var c :- Escape();
          ghost var more := TakeChars(Rest());
          assert more.Some? ==> out + ([c] + more.value.0) == (out + [c]) + more.value.0;
          out := out + [c];
        } else if byte.value < 0x20 {
          return None;
        } else {
          var raw :- Raw();
          ghost var more := TakeChars(Rest());
          assert more.Some? ==> out + (raw + more.value.0) == (out + raw) + more.value.0;
          out := out + raw;
        }
      }
    }

    method Digits()
      requires Valid()
      modifies this
      ensures Valid() && pos == old(pos) + DigitsLength(old(Rest()))
    {
      while Peek().Some? && IsDigit(Peek().value)
        invariant Valid() && pos + DigitsLength(Rest()) == old(pos) + DigitsLength(old(Rest()))
        decreases |bytes| - pos
      {
        pos := pos + 1;
      }
    }

    method Exponent()
      requires Valid()
      modifies this
      ensures Valid() && pos == old(pos) + ExponentLength(old(Rest()))
    {
      if Peek() == Some(0x65) || Peek() == Some(0x45) {
        pos := pos + 1;
        if Peek() == Some(0x2b) || Peek() == Some(MINUS) {
          pos := pos + 1;
        }
        Digits();
      }
    }

    /** Moves over a fraction and an exponent, each optional. */
    method FractionAndExponent()
      requires Valid()
      modifies this
      ensures Valid() && pos == old(pos) + FractionLength(old(Rest()))
    {
      hide DigitsLength, ExponentLength;
      if Peek() == Some(DOT) {
        pos := pos + 1;
        Digits();
      }
      Exponent();
    }

    method ScanNumber()
      requires Valid()
      modifies this
      ensures Valid() && pos == old(pos) + NumberLength(old(Rest()))
    {
      hide DigitsLength, FractionLength;
      if Peek() == Some(MINUS) {
        pos := pos + 1;
      }
      Digits();
      FractionAndExponent();
    }

    method ReadNumber() returns (r: Option<Value>)
      requires Valid()
      modifies this
      ensures Valid() && Follows(r, Rest(), TakeNumber(floats, old(Rest())))
    {
      hide NumberLength, Utf8.Decode;
      var start := pos;
      ScanNumber();
      assert bytes[start..][..pos - start] == bytes[start..pos];
      var text :- Utf8.Decode(bytes[start..pos]);
      if text == [] || text == "-" || floats.read(text) == None {
        return None;
      }
      return Some(Number(text));
    }

    method ReadValue(depth: nat) returns (r: Option<Value>)
      requires Valid()
      modifies this
      ensures Valid() && Follows(r, Rest(), TakeValue(floats, old(Rest()), depth))
      decreases |bytes| - pos, 2
    {
      hide TakeChars, TakeNumber, TakeObject, TakeArray;
      if depth > MAX_DEPTH {
        return None;
      }
      var first := Peek();
      if first == None {
        return None;
      } else if first.value == OPEN_BRACE {
        r := ReadObject(depth);
      } else if first.value == OPEN_BRACKET {
        r := ReadArray(depth);
      } else if first.value == QUOTE {
        var s :- ReadString();
        return Some(String(s));
      } else if first.value == MINUS || IsDigit(first.value) {
        r := ReadNumber();
      } else {
        var found := Literal(WORD_TRUE);
        if found {
          return Some(Bool(true));
        }
        found := Literal(WORD_FALSE);
        if found {
          return Some(Bool(false));
        }
        found := Literal(WORD_NULL);
        if found {
          return Some(Null);
        }
        return None;
      }
    }

    /** A key, a colon and a value, with the white space around them. */
    method ReadMember(depth: nat) returns (r: Option<Entry>)
      requires Valid()
      modifies this
      ensures Valid() && Follows(r, Rest(), TakeMember(floats, old(Rest()), depth))
      decreases |bytes| - pos, 3
    {
      hide SkipSpace, TakeChars, TakeValue;
      SkipWhitespace();
      if Peek() != Some(QUOTE) {
        return None;
      }
      var key :- ReadString();
      SkipWhitespace();
      var colon := Take();
      if colon != Some(COLON) {
        return None;
      }
      SkipWhitespace();
      var value :- ReadValue(depth + 1);
      SkipWhitespace();
      return Some(Entry(key, value));
    }

    method ReadObject(depth: nat) returns (r: Option<Value>)
      requires Valid() && Rest() != []
      modifies this
      ensures Valid() && Follows(r, Rest(), TakeObject(floats, old(Rest()), depth))
      decreases |bytes| - pos, 1
    {
      hide SkipSpace, TakeMember, TakeEntries, Prepend;
      var _ := Take();
      SkipWhitespace();
      if Peek() == Some(CLOSE_BRACE) {
        var _ := Take();
        return Some(Object([]));
      }
      ghost var meaning := TakeEntries(floats, Rest(), depth);
      var entries := [];
      PrependNothing(meaning);
      while true
        invariant Valid() && pos > old(pos) && meaning == Prepend(entries, TakeEntries(floats, Rest(), depth))
        decreases |bytes| - pos
      {
        EntriesStep(floats, Rest(), depth, entries);
        var entry :- ReadMember(depth);
        var next := Take();
        if next == Some(COMMA) {
          entries := entries + [entry];
        } else if next == Some(CLOSE_BRACE) {
          return Some(Object(entries + [entry]));
        } else {
          return None;
        }
      }
    }

    method ReadArray(depth: nat) returns (r: Option<Value>)
      requires Valid() && Rest() != []
      modifies this
      ensures Valid() && Follows(r, Rest(), TakeArray(floats, old(Rest()), depth))
      decreases |bytes| - pos, 1
    {
      hide SkipSpace, TakeValue, TakeItems, Prepend;
      var _ := Take();
      SkipWhitespace();
      if Peek() == Some(CLOSE_BRACKET) {
        var _ := Take();
        return Some(Array([]));
      }
      ghost var meaning := TakeItems(floats, Rest(), depth);
      var items := [];
      PrependNothing(meaning);
      while true
        invariant Valid() && pos > old(pos) && meaning == Prepend(items, TakeItems(floats, Rest(), depth))
        decreases |bytes| - pos
      {
        ItemsStep(floats, Rest(), depth, items);
        SkipWhitespace();
        var value :- ReadValue(depth + 1);
        SkipWhitespace();
        var next := Take();
        if next == Some(COMMA) {
          items := items + [value];
        } else if next == Some(CLOSE_BRACKET) {
          return Some(Array(items + [value]));
        } else {
          return None;
        }
      }
    }
  }

  /** The value of the first `n` bytes of `bs` read as hex digits. */
  ghost function HexPrefix(bs: seq<byte>, n: nat): Option<nat>
    requires n <= |bs|
  {
    if n == 0 then Some(0)
    else
      var front :- HexPrefix(bs, n - 1);
      var last :- HexValue(bs[n - 1]);
      Some(front * 0x10 + last)
  }

  lemma HexPrefixFour(bs: seq<byte>)
    requires |bs| >= 4 && HexPrefix(bs, 4).Some?
    ensures TakeHex4(bs) == Some((HexPrefix(bs, 4).value, bs[4..]))
  {
    hide HexValue;
    assert HexPrefix(bs, 3).Some? && HexPrefix(bs, 2).Some? && HexPrefix(bs, 1).Some?;
    assert HexPrefix(bs, 1).value == HexValue(bs[0]).value;
    assert HexPrefix(bs, 2).value == HexPrefix(bs, 1).value * 0x10 + HexValue(bs[1]).value;
    assert HexPrefix(bs, 3).value == HexPrefix(bs, 2).value * 0x10 + HexValue(bs[2]).value;
  }

  /** Parses one complete document, rejecting trailing content and too deep nesting. */
  method Parse(floats: FloatText, text: string) returns (r: Option<Value>)
    ensures r == ParseBytes(floats, Utf8.Encode(text))
    ensures r.Some? ==> Nesting(r.value) <= MAX_DEPTH
  {
    hide TakeValue, SkipSpace, Utf8.Encode, Nesting;
    var parser := new Parser(floats, Utf8.Encode(text));
    parser.SkipWhitespace();
    ghost var start := parser.Rest();
    var value :- parser.ReadValue(0);
    ValueNesting(floats, start, 0);
    parser.SkipWhitespace();
    if parser.pos != |parser.bytes| {
      return None;
    }
    return Some(value);
  }
}
