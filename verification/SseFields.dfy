/**
 What the parser makes of the single fields: line ends, the optional space, numbers, and
 the fields it ignores.
 */
module SseFields {
  import opened Options
  import opened Bytes
  import opened SseParser

  // -------------------------------------------------------------------------
  // Line ends
  // -------------------------------------------------------------------------

  /** One carriage return is cut off the end of a line, and only one. */
  lemma CarriageReturnStripped(line: seq<byte>)
    ensures StripCr(line + [CR]) == line
    ensures line == [] || line[|line| - 1] != CR ==> StripCr(line) == line
  {
    assert (line + [CR])[..|line|] == line;
  }

  /** A line that ends in CR LF reads as one that ends in LF; a CR elsewhere is part of its line. */
  lemma LineEndsAgree(decode: Decoder, line: seq<byte>, later: seq<byte>)
    requires LF !in line && (line == [] || line[|line| - 1] != CR)
    ensures Texts(decode, Lines(line + [CR] + [LF] + later)) == Texts(decode, Lines(line + [LF] + later))
    ensures Texts(decode, Lines(line + [LF] + later)) == [decode(line)] + Texts(decode, Lines(later))
  {
    CarriageReturnStripped(line);
    assert LF !in line + [CR];
    LineOff(line + [CR], later);
    LineOff(line, later);
    TextsCons(decode, line + [CR], Lines(later));
    TextsCons(decode, line, Lines(later));
  }

  // -------------------------------------------------------------------------
  // Fields
  // -------------------------------------------------------------------------

  lemma {:induction false} NoColon(line: string)
    requires ':' !in line
    ensures IndexOf(line, ':') == |line|
  {
    if line != "" { NoColon(line[1..]); }
  }

  /** Without a space the value is what follows the colon; without a colon the line is a field with no value. */
  lemma FieldWithoutSpace(name: string, value: string)
    requires ':' !in name
    ensures value == "" || value[0] != ' ' ==> FieldOf(name + ":" + value) == (name, value)
    ensures FieldOf(name) == (name, "")
  {
    var line := name + ":" + value;
    assert line[|name|] == ':' && forall i :: 0 <= i < |name| ==> line[i] == name[i];
    FirstColon(line, |name|);
    assert line[..|name|] == name && line[|name| + 1..] == value;
    NoColon(name);
  }

  /** A blank line without data dispatches nothing and keeps every pending field. */
  lemma BlankWithoutData(f: Frame)
    ensures f.data == [] ==> ReadLines(f, [""]) == (f, [])
    ensures f.data != [] ==> ReadLines(f, [""]) == (NO_FRAME, [SseEvent(f.id, f.event, Join(f.data), f.retry)])
  {
    ReadFirst(f, "", []);
  }

  lemma FieldLineRead(f: Frame, name: string, value: string)
    requires name != "" && ':' !in name
    ensures ReadLines(f, [name + ": " + value]) == (WithField(f, name, value), [])
  {
    FieldRoundTrip(name, value);
    ReadFirst(f, name + ": " + value, []);
    assert (name + ": " + value)[0] == name[0];
  }

  /** An id with a NUL in it is ignored, and so is every field but four. */
  lemma IgnoredFields(f: Frame, name: string, value: string)
    requires ':' !in name && name != ""
    requires (name == "id" && '\0' in value) || !(name in {"id", "event", "data", "retry"})
    ensures ReadLines(f, [name + ": " + value]) == (f, [])
  {
    FieldLineRead(f, name, value);
  }

  // -------------------------------------------------------------------------
  // Numbers
  // -------------------------------------------------------------------------

  function DigitChar(n: nat): char
    requires n < 10
  {
    '0' + n as char
  }

  /** The decimal spelling of a number. */
  function Decimal(n: nat): string {
    if n < 10 then [DigitChar(n)] else Decimal(n / 10) + [DigitChar(n % 10)]
  }

  function Signed(n: int): string { if n < 0 then "-" + Decimal(-n) else Decimal(n) }

  lemma {:induction false} DecimalValue(n: nat)
    ensures IsDigits(Decimal(n)) && DigitsValue(Decimal(n)) == n
  {
    if n < 10 {
      assert Decimal(n)[..0] == "";
    } else {
      DecimalValue(n / 10);
      assert Decimal(n)[..|Decimal(n)| - 1] == Decimal(n / 10);
    }
  }

  lemma ParseDecimal(n: nat)
    ensures ParseU64(Decimal(n)) == if n <= 0xFFFF_FFFF_FFFF_FFFF then Some(n) else None
  {
    DecimalValue(n);
    assert '0' <= Decimal(n)[0] <= '9';
  }

  /** Event ids are 64-bit signed numbers: each is read as itself, anything beyond as nothing. */
  lemma ParseSigned(n: int)
    ensures ParseI64(Signed(n)) ==
              if -0x8000_0000_0000_0000 <= n <= 0x7FFF_FFFF_FFFF_FFFF then Some(n) else None
  {
    if n < 0 {
      DecimalValue(-n);
      assert Signed(n)[1..] == Decimal(-n);
    } else {
      DecimalValue(n);
      assert '0' <= Decimal(n)[0] <= '9';
    }
  }

  ghost predicate Blank(s: string) { forall i :: 0 <= i < |s| ==> IsWhitespace(s[i]) }

  predicate Tight(s: string) { s != "" && !IsWhitespace(s[0]) && !IsWhitespace(s[|s| - 1]) }

  lemma {:induction false} TrimStartOf(a: string, s: string)
    requires Blank(a) && s != "" && !IsWhitespace(s[0])
    ensures TrimStart(a + s) == s
  {
    if a == "" {
      assert a + s == s;
    } else {
      assert (a + s)[0] == a[0] && (a + s)[1..] == a[1..] + s;
      TrimStartOf(a[1..], s);
    }
  }

  lemma {:induction false} TrimEndOf(s: string, b: string)
    requires Blank(b) && s != "" && !IsWhitespace(s[|s| - 1])
    ensures TrimEnd(s + b) == s
  {
    if b == "" {
      assert s + b == s;
    } else {
      var all := s + b;
      assert all[|all| - 1] == b[|b| - 1] && all[..|all| - 1] == s + b[..|b| - 1];
      TrimEndOf(s, b[..|b| - 1]);
    }
  }

  /** White space around a value does not matter. */
  lemma TrimOf(a: string, s: string, b: string)
    requires Blank(a) && Tight(s) && Blank(b)
    ensures Trim(a + s + b) == s
  {
    assert a + s + b == a + (s + b);
    TrimStartOf(a, s + b);
    TrimEndOf(s, b);
  }

  lemma {:induction false} DigitsAreTight(s: string)
    requires IsDigits(s)
    ensures Tight(s) && Tight("-" + s)
  {
    assert '0' <= s[0] <= '9' && '0' <= s[|s| - 1] <= '9';
  }

  /** The cursor of an event is the number its id spells, white space aside. */
  lemma CursorIsId(n: int, a: string, b: string, event: Option<string>, data: string)
    requires -0x8000_0000_0000_0000 <= n <= 0x7FFF_FFFF_FFFF_FFFF && Blank(a) && Blank(b)
    ensures CursorOf(SseEvent(Some(a + Signed(n) + b), event, data, None)) == Some(n)
    ensures CursorOf(SseEvent(None, event, data, None)) == None
  {
    DecimalValue(if n < 0 then -n else n);
    DigitsAreTight(Decimal(if n < 0 then -n else n));
    TrimOf(a, Signed(n), b);
    ParseSigned(n);
  }

  lemma TrimDecimal(n: nat)
    ensures Trim(Decimal(n)) == Decimal(n)
  {
    DecimalValue(n);
    DigitsAreTight(Decimal(n));
    TrimOf("", Decimal(n), "");
    assert "" + Decimal(n) + "" == Decimal(n);
  }

  /** A retry line sets the delay it spells; one that is no 64-bit number changes nothing. */
  lemma RetryIsRead(f: Frame, n: nat)
    ensures ReadLines(f, ["retry" + ": " + Decimal(n)])
            == (if n <= 0xFFFF_FFFF_FFFF_FFFF then f.(retry := Some(n)) else f, [])
  {
    FieldLineRead(f, "retry", Decimal(n));
    TrimDecimal(n);
    ParseDecimal(n);
  }
}
